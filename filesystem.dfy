/** The part of the host file system the program uses (`std::fs` and `std::path`). A path
    is the sequence of names below the root; the file system maps every existing path
    other than the root to a directory or a file. A file holds either text or a TOML
    document (its decoded value tree, see Serde). */
module FileSystem {
  import opened Wrappers
  import opened Strings
  import opened Serde

  type Path = seq<string>

  /** A path component: non-empty and without a separator. */
  predicate IsName(c: string) {
    c != "" && '/' !in c
  }

  predicate IsNamePath(p: Path) {
    forall i :: 0 <= i < |p| ==> IsName(p[i])
  }

  /** The non-empty strings of `xs`, in order. */
  function NonEmpty(xs: seq<string>): (r: seq<string>)
    ensures forall i :: 0 <= i < |r| ==> r[i] != "" && r[i] in xs
  {
    if xs == [] then []
    else (if xs[0] == "" then [] else [xs[0]]) + NonEmpty(xs[1..])
  }

  lemma {:induction false} NonEmptyKeeps(xs: seq<string>)
    requires forall i :: 0 <= i < |xs| ==> xs[i] != ""
    ensures NonEmpty(xs) == xs
  {
    if xs != [] {
      NonEmptyKeeps(xs[1..]);
    }
  }

  /** `Path::components` of a path string: the pieces between slashes; repeated, leading
      and trailing slashes give no component. */
  function Components(s: string): (r: Path)
    ensures IsNamePath(r)
  {
    NonEmpty(Split(s, '/'))
  }

  predicate Absolute(s: string) {
    s != "" && s[0] == '/'
  }

  /** `Path::join`: a relative path is appended to the base, an absolute one replaces it. */
  function Join(base: Path, s: string): (r: Path)
    ensures IsNamePath(base) ==> IsNamePath(r)
    ensures !Absolute(s) ==> base <= r
  {
    if Absolute(s) then Components(s) else base + Components(s)
  }

  /** `to_string_lossy` of a path: the names after the root, separated by slashes. */
  function PathString(p: Path): string {
    "/" + JoinWith(p, "/")
  }

  /** `strip_prefix(base)` of a path below `base`, as a string. */
  function Relative(base: Path, p: Path): string
    requires base <= p
  {
    JoinWith(p[|base|..], "/")
  }

  /** Joining names and splitting the result again gives the names back. */
  lemma ComponentsOfJoined(xs: Path)
    requires IsNamePath(xs)
    ensures Components(JoinWith(xs, "/")) == xs
  {
    if xs == [] {
      assert Split("", '/') == [""];
      assert NonEmpty([""]) == [] + NonEmpty([]);
    } else {
      assert "/" == ['/'];
      assert forall i :: 0 <= i < |xs| ==> '/' !in xs[i] && xs[i] != "" by {
        forall i | 0 <= i < |xs| ensures '/' !in xs[i] && xs[i] != "" {
          assert IsName(xs[i]);
        }
      }
      SplitJoinWith(xs, '/');
      NonEmptyKeeps(xs);
    }
  }

  /** A module name listed relative to a base joins back onto that base to the listed path. */
  lemma JoinRelative(base: Path, p: Path)
    requires IsNamePath(p) && base <= p
    ensures Join(base, Relative(base, p)) == p
  {
    var rest := p[|base|..];
    assert IsNamePath(rest) by {
      forall i | 0 <= i < |rest| ensures IsName(rest[i]) {
        assert rest[i] == p[|base| + i];
      }
    }
    ComponentsOfJoined(rest);
    if rest != [] {
      assert JoinWith(rest, "/")[0] == rest[0][0];
    }
    assert base + rest == p;
  }

  // ---- Entries ----

  datatype Content = Text(text: string) | Document(doc: Toml)

  datatype Node = DirNode | FileNode(content: Content)

  type Fs = map<Path, Node>

  /** The root is always a directory. */
  predicate IsDir(fs: Fs, p: Path) {
    p == [] || (p in fs && fs[p].DirNode?)
  }

  predicate IsFile(fs: Fs, p: Path) {
    p in fs && fs[p].FileNode?
  }

  /** `Path::exists`. */
  predicate Exists(fs: Fs, p: Path) {
    p == [] || p in fs
  }

  function Parent(p: Path): Path
    requires p != []
  {
    p[..|p| - 1]
  }

  /** A well-formed file system: every entry has a name path and lies in a directory. */
  predicate Tree(fs: Fs) {
    forall p :: p in fs ==> p != [] && IsNamePath(p) && IsDir(fs, Parent(p))
  }

  // ---- Operations: the new file system and whether the call succeeded ----

  /** `fs::create_dir_all`: creates every missing directory along `p`; when some prefix is
      a file nothing is created and the call fails. */
  function CreateDirAll(fs: Fs, p: Path): (Fs, bool)
  {
    if p == [] then (fs, true)
    else
      var (f, ok) := CreateDirAll(fs, Parent(p));
      if !ok || IsFile(f, p) then (fs, false)
      else if p in f then (f, true)
      else (f[p := DirNode], true)
  }

  /** `fs::remove_file`: only a file can be removed. */
  function RemoveFile(fs: Fs, p: Path): (Fs, bool) {
    if IsFile(fs, p) then (fs - {p}, true) else (fs, false)
  }

  /** A file can be created or replaced at `p`: its directory exists and `p` is not a directory. */
  predicate CanWrite(fs: Fs, p: Path) {
    p != [] && IsDir(fs, Parent(p)) && !IsDir(fs, p)
  }

  /** `fs::copy`: the source must be a file; the target is created or replaced. */
  function Copy(fs: Fs, src: Path, dst: Path): (Fs, bool) {
    if IsFile(fs, src) && CanWrite(fs, dst) then (fs[dst := fs[src]], true) else (fs, false)
  }

  /** `fs::write`. */
  function Write(fs: Fs, p: Path, c: Content): (Fs, bool) {
    if CanWrite(fs, p) then (fs[p := FileNode(c)], true) else (fs, false)
  }

  /** `fs::remove_dir_all`: a directory and everything below it. */
  function RemoveDirAll(fs: Fs, p: Path): (Fs, bool) {
    if p != [] && IsDir(fs, p) then (map q | q in fs && !(p <= q) :: fs[q], true) else (fs, false)
  }

  /** `fs::read_to_string`. */
  function ReadText(fs: Fs, p: Path): (r: Option<string>)
    ensures r.Some? <==> IsFile(fs, p) && fs[p].content.Text?
  {
    if IsFile(fs, p) && fs[p].content.Text? then Some(fs[p].content.text) else None
  }

  /** `read_config`: a document that decodes as a module descriptor in the given dialect. */
  function ReadConfig(fs: Fs, p: Path, d: Dialect): (r: Option<Models.PluginInfo>)
    ensures r.Some? ==> IsFile(fs, p) && fs[p].content.Document?
  {
    if IsFile(fs, p) && fs[p].content.Document? then DecodeInfo(fs[p].content.doc, d) else None
  }

  /** `read_dir`: the entries directly inside `d`, in the order the host lists them
      (`order`; an entry the order does not mention is not listed). */
  function Listing(fs: Fs, order: seq<Path>, d: Path): (r: seq<Path>)
    ensures forall i :: 0 <= i < |r| ==> r[i] in fs && r[i] in order && r[i] != [] && Parent(r[i]) == d
  {
    if order == [] then []
    else
      var q := order[0];
      (if q in fs && q != [] && Parent(q) == d then [q] else []) + Listing(fs, order[1..], d)
  }

  // ---- Properties ----

  /** `create_dir_all` fails exactly when a prefix of the path is a file; on success every
      prefix is a directory, the prefixes are added and nothing that existed changes. */
  lemma {:induction false} CreateDirAllSpec(fs: Fs, p: Path)
    ensures var (f, ok) := CreateDirAll(fs, p);
      (ok <==> forall i :: 0 < i <= |p| ==> !IsFile(fs, p[..i])) &&
      (!ok ==> f == fs) &&
      (ok ==> (forall i :: 0 <= i <= |p| ==> IsDir(f, p[..i])) &&
              f.Keys == fs.Keys + (set i | 0 < i <= |p| :: p[..i]) &&
              forall q :: q in fs ==> f[q] == fs[q])
  {
    if p != [] {
      var pp := Parent(p);
      CreateDirAllSpec(fs, pp);
      var (f, ok) := CreateDirAll(fs, pp);
      assert forall i :: 0 < i < |p| ==> p[..i] == pp[..i];
      assert p[..|p|] == p;
      if ok {
        assert IsFile(f, p) <==> IsFile(fs, p) by {
          if p !in fs {
            assert p !in (set i | 0 < i <= |pp| :: pp[..i]);
          }
        }
        assert (set i | 0 < i <= |p| :: p[..i]) == (set i | 0 < i <= |pp| :: pp[..i]) + {p};
      }
    }
  }

  /** Every operation keeps the file system a tree. */
  lemma CreateDirAllTree(fs: Fs, p: Path)
    requires Tree(fs) && IsNamePath(p)
    ensures Tree(CreateDirAll(fs, p).0)
  {
    CreateDirAllSpec(fs, p);
    var (f, ok) := CreateDirAll(fs, p);
    if ok {
      forall q | q in f ensures q != [] && IsNamePath(q) && IsDir(f, Parent(q)) {
        if q !in fs {
          var i :| 0 < i <= |p| && q == p[..i];
          assert Parent(q) == p[..i - 1];
        }
      }
    }
  }

  lemma RemoveFileTree(fs: Fs, p: Path)
    requires Tree(fs)
    ensures Tree(RemoveFile(fs, p).0)
  {
  }

  lemma CopyTree(fs: Fs, src: Path, dst: Path)
    requires Tree(fs) && IsNamePath(dst)
    ensures Tree(Copy(fs, src, dst).0)
  {
  }

  lemma WriteTree(fs: Fs, p: Path, c: Content)
    requires Tree(fs) && IsNamePath(p)
    ensures Tree(Write(fs, p, c).0)
  {
  }

  lemma RemoveDirAllTree(fs: Fs, p: Path)
    requires Tree(fs)
    ensures Tree(RemoveDirAll(fs, p).0)
  {
    var (f, ok) := RemoveDirAll(fs, p);
    if ok {
      forall q | q in f ensures IsDir(f, Parent(q)) {
        assert Parent(q) == [] || !(p <= Parent(q));
      }
    }
  }

  /** `remove_dir_all` deletes exactly the directory's subtree. */
  lemma RemoveDirAllSubtree(fs: Fs, p: Path)
    requires p != [] && IsDir(fs, p)
    ensures var (f, ok) := RemoveDirAll(fs, p);
      ok && (forall q :: q in f <==> q in fs && !(p <= q)) && forall q :: q in f ==> f[q] == fs[q]
  {
  }
}
