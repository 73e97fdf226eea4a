/**
 The names under which open files are declared external at dump and handed over at restore.
 */
module InheritKeys {

  datatype Option<T> = None | Some(value: T)

  // One open file of the saved state
  datatype OpenFile = OpenFile(path: string, fd: nat, mount: nat, inode: nat, rdev: nat, dev: nat, tty: bool)

  // The saved state of a process and of its children
  datatype Process = Process(files: seq<OpenFile>, mounts: seq<nat>, children: seq<Process>)

  /******* The walk over the state *******/

  function Files(p: Process): seq<OpenFile> {
    p.files + FilesOf(p.children)
  }

  function FilesOf(ps: seq<Process>): seq<OpenFile> {
    if ps == [] then [] else Files(ps[0]) + FilesOf(ps[1..])
  }

  function Mounts(p: Process): set<nat> {
    (set m | m in p.mounts) + MountsOf(p.children)
  }

  function MountsOf(ps: seq<Process>): set<nat> {
    if ps == [] then {} else Mounts(ps[0]) + MountsOf(ps[1..])
  }

  // The process that a path of child numbers leads to
  function At(p: Process, path: seq<nat>): Option<Process>
    decreases |path|
  {
    if path == [] then Some(p)
    else if path[0] < |p.children| then At(p.children[path[0]], path[1..])
    else None
  }

  ghost predicate FileAt(p: Process, path: seq<nat>, f: OpenFile) {
    At(p, path).Some? && f in At(p, path).value.files
  }

  ghost predicate MountAt(p: Process, path: seq<nat>, m: nat) {
    At(p, path).Some? && m in At(p, path).value.mounts
  }

  lemma {:induction false} InFilesOf(ps: seq<Process>, f: OpenFile)
    ensures f in FilesOf(ps) <==> exists i :: 0 <= i < |ps| && f in Files(ps[i])
  {
    if ps != [] {
      InFilesOf(ps[1..], f);
      if f in FilesOf(ps[1..]) {
        var i :| 0 <= i < |ps| - 1 && f in Files(ps[1..][i]);
        assert ps[i + 1] == ps[1..][i];
      }
      if i :| 0 <= i < |ps| && f in Files(ps[i]) && i > 0 {
        assert ps[1..][i - 1] == ps[i];
      }
    }
  }

  lemma {:induction false} InMountsOf(ps: seq<Process>, m: nat)
    ensures m in MountsOf(ps) <==> exists i :: 0 <= i < |ps| && m in Mounts(ps[i])
  {
    if ps != [] {
      InMountsOf(ps[1..], m);
      if m in MountsOf(ps[1..]) {
        var i :| 0 <= i < |ps| - 1 && m in Mounts(ps[1..][i]);
        assert ps[i + 1] == ps[1..][i];
      }
      if i :| 0 <= i < |ps| && m in Mounts(ps[i]) && i > 0 {
        assert ps[1..][i - 1] == ps[i];
      }
    }
  }

  // The walk comes to the files of the process and of all below it
  lemma {:induction false} FilesIff(p: Process, f: OpenFile)
    ensures f in Files(p) <==> exists path :: FileAt(p, path, f)
    decreases p
  {
    InFilesOf(p.children, f);
    if f in p.files {
      assert FileAt(p, [], f);
    } else if f in Files(p) {
      var i :| 0 <= i < |p.children| && f in Files(p.children[i]);
      FilesIff(p.children[i], f);
      var path :| FileAt(p.children[i], path, f);
      assert ([i] + path)[1..] == path && FileAt(p, [i] + path, f);
    }
    if path :| FileAt(p, path, f) && path != [] {
      assert FileAt(p.children[path[0]], path[1..], f);
      FilesIff(p.children[path[0]], f);
    }
  }

  lemma {:induction false} MountsIff(p: Process, m: nat)
    ensures m in Mounts(p) <==> exists path :: MountAt(p, path, m)
    decreases p
  {
    InMountsOf(p.children, m);
    if m in p.mounts {
      assert MountAt(p, [], m);
    } else if m in Mounts(p) {
      var i :| 0 <= i < |p.children| && m in Mounts(p.children[i]);
      MountsIff(p.children[i], m);
      var path :| MountAt(p.children[i], path, m);
      assert ([i] + path)[1..] == path && MountAt(p, [i] + path, m);
    }
    if path :| MountAt(p, path, m) && path != [] {
      assert MountAt(p.children[path[0]], path[1..], m);
      MountsIff(p.children[path[0]], m);
    }
  }

  /******* Keys *******/

  const HEX := "0123456789abcdef"

  // Lower-case hexadecimal without leading zeros
  function Hex(n: nat): (s: string)
    ensures s != [] && forall i :: 0 <= i < |s| ==> s[i] in HEX
  {
    if n < 16 then [HEX[n]] else Hex(n / 16) + [HEX[n % 16]]
  }

  function Pair(a: nat, b: nat): string {
    "[" + (Hex(a) + ":" + Hex(b)) + "]"
  }

  function TtyKey(f: OpenFile): string {
    "tty" + Pair(f.rdev, f.dev)
  }

  function FileKey(f: OpenFile): string {
    "file" + Pair(f.mount, f.inode)
  }

  // The path without its leading slash
  function PathKey(f: OpenFile): string {
    if "/" <= f.path then f.path[1..] else f.path
  }

  // Outside the mounts of the state, and a real file
  predicate External(mounts: set<nat>, f: OpenFile) {
    !(f.mount in mounts || "pipe" <= f.path || "socket" <= f.path || "anon_inode" <= f.path || "/memfd:" <= f.path)
  }

  predicate Begins(path: string, with: string) {
    |path| >= |with| && path[..|with|] == with
  }

  /**
   A file is external exactly if no process of the state has its mount and its path does not name a pipe, a socket,
   an anonymous inode or a memfd.
   */
  lemma ExternalIff(p: Process, f: OpenFile)
    ensures External(Mounts(p), f) <==>
            && !(exists path :: MountAt(p, path, f.mount))
            && !Begins(f.path, "pipe") && !Begins(f.path, "socket") && !Begins(f.path, "anon_inode") && !Begins(f.path, "/memfd:")
  {
    MountsIff(p, f.mount);
  }

  function Digit(c: char): nat {
    if '0' <= c <= '9' then c as int - '0' as int else if 'a' <= c <= 'f' then 10 + (c as int - 'a' as int) else 0
  }

  function ValueOf(s: string): nat {
    if s == [] then 0 else 16 * ValueOf(s[..|s| - 1]) + Digit(s[|s| - 1])
  }

  // The digits read as a hexadecimal number give the number, and there is no leading zero
  lemma {:induction false} HexReads(n: nat)
    ensures ValueOf(Hex(n)) == n && (n > 0 ==> Hex(n)[0] != '0')
  {
    if n >= 16 {
      HexReads(n / 16);
      assert Hex(n)[..|Hex(n)| - 1] == Hex(n / 16);
      DigitReads(n % 16);
    } else {
      assert Hex(n)[..0] == [];
      DigitReads(n);
    }
  }

  lemma DigitReads(d: nat)
    requires d < 16
    ensures Digit(HEX[d]) == d && (d > 0 ==> HEX[d] != '0')
  {
  }

  // How keys are written
  lemma KeysAre(f: OpenFile)
    ensures TtyKey(f) == "tty[" + Hex(f.rdev) + ":" + Hex(f.dev) + "]"
    ensures FileKey(f) == "file[" + Hex(f.mount) + ":" + Hex(f.inode) + "]"
    ensures PathKey(f) == (if f.path != "" && f.path[0] == '/' then f.path[1..] else f.path)
  {
    var t, u := Hex(f.rdev) + ":" + Hex(f.dev), Hex(f.mount) + ":" + Hex(f.inode);
    assert "tty" + ("[" + t + "]") == "tty[" + t + "]" && "file" + ("[" + u + "]") == "file[" + u + "]";
    assert "tty[" + Hex(f.rdev) + ":" + Hex(f.dev) + "]" == "tty[" + t + "]";
    assert "file[" + Hex(f.mount) + ":" + Hex(f.inode) + "]" == "file[" + u + "]";
  }

  lemma {:induction false} HexInjective(a: nat, b: nat)
    requires Hex(a) == Hex(b)
    ensures a == b
  {
    if a >= 16 && b >= 16 {
      var s, t := Hex(a / 16), Hex(b / 16);
      assert (s + [HEX[a % 16]])[..|s|] == s && (t + [HEX[b % 16]])[..|t|] == t;
      assert (s + [HEX[a % 16]])[|s|] == (t + [HEX[b % 16]])[|t|];
      HexInjective(a / 16, b / 16);
      HexDigit(a % 16, b % 16);
    } else if a < 16 && b < 16 {
      assert [HEX[a]][0] == [HEX[b]][0];
      HexDigit(a, b);
    }
  }

  lemma HexDigit(a: nat, b: nat)
    requires a < 16 && b < 16 && HEX[a] == HEX[b]
    ensures a == b
  {
  }

  // A colon splits a string in one way if the left part has none
  lemma {:induction false} SplitOnce(x: string, y: string, u: string, v: string)
    requires ':' !in x && ':' !in u && x + ":" + y == u + ":" + v
    ensures x == u && y == v
  {
    var s := x + ":" + y;
    assert s[|x|] == ':' && s[|u|] == ':';
    assert forall i :: 0 <= i < |x| ==> s[i] == x[i];
    assert forall i :: 0 <= i < |u| ==> s[i] == u[i];
    assert |x| == |u|;
    assert s[..|x|] == x && s[..|x|] == u;
    assert s[|x| + 1..] == y && s[|x| + 1..] == v;
  }

  lemma Unbracket(x: string, y: string)
    requires "[" + x + "]" == "[" + y + "]"
    ensures x == y
  {
    assert ("[" + x + "]")[1..|x| + 1] == x && ("[" + y + "]")[1..|y| + 1] == y;
  }

  lemma PairInjective(a: nat, b: nat, c: nat, d: nat)
    requires Pair(a, b) == Pair(c, d)
    ensures a == c && b == d
  {
    Unbracket(Hex(a) + ":" + Hex(b), Hex(c) + ":" + Hex(d));
    assert ':' !in HEX;
    SplitOnce(Hex(a), Hex(b), Hex(c), Hex(d));
    HexInjective(a, c);
    HexInjective(b, d);
  }

  // Keys of external files are not empty
  lemma KeysFilled(f: OpenFile)
    ensures TtyKey(f) != "" && FileKey(f) != ""
  {
    assert TtyKey(f)[0] == 't' && FileKey(f)[0] == 'f';
  }

  // A key names one device pair, or one file of one mount, and says which of the two it names
  lemma KeysInjective(f: OpenFile, g: OpenFile)
    ensures TtyKey(f) == TtyKey(g) <==> f.rdev == g.rdev && f.dev == g.dev
    ensures FileKey(f) == FileKey(g) <==> f.mount == g.mount && f.inode == g.inode
    ensures TtyKey(f) != FileKey(g)
  {
    assert TtyKey(f)[0] == 't' && FileKey(g)[0] == 'f';
    assert TtyKey(f)[3..] == Pair(f.rdev, f.dev) && TtyKey(g)[3..] == Pair(g.rdev, g.dev);
    assert FileKey(f)[4..] == Pair(f.mount, f.inode) && FileKey(g)[4..] == Pair(g.mount, g.inode);
    if TtyKey(f) == TtyKey(g) {
      PairInjective(f.rdev, f.dev, g.rdev, g.dev);
    }
    if FileKey(f) == FileKey(g) {
      PairInjective(f.mount, f.inode, g.mount, g.inode);
    }
  }

  /******* Dump *******/

  // The key under which an external file is declared
  function ExternalKey(f: OpenFile): string {
    if f.tty then TtyKey(f) else FileKey(f)
  }

  predicate Names(mounts: set<nat>, f: OpenFile, key: string) {
    External(mounts, f) && key == ExternalKey(f)
  }

  // The keys declared external, in walk order, of the first n files
  function Declared(mounts: set<nat>, files: seq<OpenFile>, n: nat): seq<string>
    requires n <= |files|
  {
    if n == 0 then []
    else
      var f := files[n - 1];
      Declared(mounts, files, n - 1)
      + if External(mounts, f) then [ExternalKey(f)] else []
  }

  method ExternalFileKeys(p: Process) returns (keys: seq<string>)
    ensures keys == Declared(Mounts(p), Files(p), |Files(p)|)
  {
    keys := [];
    var mounts, files := Mounts(p), Files(p);
    for i := 0 to |files|
      invariant keys == Declared(mounts, files, i)
    {
      var f := files[i];
      if External(mounts, f) {
        keys := keys + [ExternalKey(f)];
      }
    }
  }

  // One of the first n files is declared under the key
  predicate Named(mounts: set<nat>, files: seq<OpenFile>, n: nat, key: string)
    requires n <= |files|
  {
    exists i :: 0 <= i < n && Names(mounts, files[i], key)
  }

  lemma NamedNext(mounts: set<nat>, files: seq<OpenFile>, n: nat, key: string)
    requires 0 < n <= |files|
    ensures Named(mounts, files, n, key) <==> Named(mounts, files, n - 1, key) || Names(mounts, files[n - 1], key)
  {
    if Named(mounts, files, n - 1, key) {
      var i :| 0 <= i < n - 1 && Names(mounts, files[i], key);
      assert i < n;
    }
  }

  // A key is declared exactly if an external file has it
  lemma {:induction false} DeclaredIff(mounts: set<nat>, files: seq<OpenFile>, n: nat, key: string)
    requires n <= |files|
    ensures key in Declared(mounts, files, n) <==> Named(mounts, files, n, key)
  {
    if n > 0 {
      DeclaredIff(mounts, files, n - 1, key);
      NamedNext(mounts, files, n, key);
      DeclaredLast(mounts, files, n, key);
    }
  }

  lemma DeclaredLast(mounts: set<nat>, files: seq<OpenFile>, n: nat, key: string)
    requires 0 < n <= |files|
    ensures key in Declared(mounts, files, n) <==> key in Declared(mounts, files, n - 1) || Names(mounts, files[n - 1], key)
  {
  }
}
