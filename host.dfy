/** The process the program runs in: the file system, the answers still to come from the
    terminal and the `cargo` commands spawned so far. Every operation of the program is a
    function from one such world to the world it leaves and its result or the halt that
    ended the process; the methods run on a `Machine` that holds the world as state. */
module Host {
  import opened Wrappers
  import opened FileSystem
  import opened Prompts
  import opened Context

  /** A spawned `cargo` command: its arguments and the variables added to its environment. */
  datatype CargoRun = CargoRun(args: seq<string>, env: seq<(string, string)>)

  datatype World = World(fs: Fs, input: Input, cargo: seq<CargoRun>)

  /** The world an operation leaves, and its value or the halt (exit, panic) that ended the process. */
  datatype Run<+T> = Run(w: World, out: Step<T>)

  /** What the process is given: the modules' home directory, the module repository, the
      directory relative destination overrides resolve against, the order in which the host
      lists directory entries, tilde expansion (`shellexpand::tilde`) and the template
      engine (`mustache` compiling a template text and rendering it with a context). */
  datatype Env = Env(home: Path, repo: Path, workdir: Path, order: seq<Path>,
                     tilde: string -> string, render: (string, Ctx) -> string)

  predicate ValidEnv(env: Env) {
    IsNamePath(env.home) && IsNamePath(env.repo) && IsNamePath(env.workdir)
  }

  /** The running process. */
  class Machine {
    var fs: Fs
    var input: Input
    var cargo: seq<CargoRun>

    constructor (fs0: Fs, input0: Input)
      ensures State() == World(fs0, input0, [])
    {
      fs, input, cargo := fs0, input0, [];
    }

    function State(): World
      reads this
    {
      World(fs, input, cargo)
    }

    method CreateDirAll(p: Path) returns (ok: bool)
      modifies this
      ensures (fs, ok) == FileSystem.CreateDirAll(old(fs), p)
      ensures input == old(input) && cargo == old(cargo)
    {
      var r := FileSystem.CreateDirAll(fs, p);
      fs, ok := r.0, r.1;
    }

    method RemoveFile(p: Path) returns (ok: bool)
      modifies this
      ensures (fs, ok) == FileSystem.RemoveFile(old(fs), p)
      ensures input == old(input) && cargo == old(cargo)
    {
      var r := FileSystem.RemoveFile(fs, p);
      fs, ok := r.0, r.1;
    }

    method Copy(src: Path, dst: Path) returns (ok: bool)
      modifies this
      ensures (fs, ok) == FileSystem.Copy(old(fs), src, dst)
      ensures input == old(input) && cargo == old(cargo)
    {
      var r := FileSystem.Copy(fs, src, dst);
      fs, ok := r.0, r.1;
    }

    method Write(p: Path, c: Content) returns (ok: bool)
      modifies this
      ensures (fs, ok) == FileSystem.Write(old(fs), p, c)
      ensures input == old(input) && cargo == old(cargo)
    {
      var r := FileSystem.Write(fs, p, c);
      fs, ok := r.0, r.1;
    }

    method RemoveDirAll(p: Path) returns (ok: bool)
      modifies this
      ensures (fs, ok) == FileSystem.RemoveDirAll(old(fs), p)
      ensures input == old(input) && cargo == old(cargo)
    {
      var r := FileSystem.RemoveDirAll(fs, p);
      fs, ok := r.0, r.1;
    }

    /** The prompts answered so far have consumed the front of the input. */
    method Answered(rest: Input)
      modifies this
      ensures State() == old(State()).(input := rest)
    {
      input := rest;
    }

    /** `Command::spawn` followed by `wait_with_output`. */
    method Spawn(run: CargoRun)
      modifies this
      ensures State() == old(State()).(cargo := old(cargo) + [run])
    {
      cargo := cargo + [run];
    }
  }
}
