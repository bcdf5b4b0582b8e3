/**
 The canonical byte stream of a world directory, which is what its identity hash is taken of.
 Relative paths are strings with `/` between their parts; the text encoding and the hash itself
 are arbitrary functions.
 */
module Snapshot {
  import opened Wrappers
  import opened Bytes
  import opened Strings

  const LENGTH_FIELD := 8
  const VOLATILE_NAMES := {"session.lock", "uid.dat"}
  const VOLATILE_DIRS := {"logs", "crash-reports", "debug"}

  /** One directory entry as enumerated, with its path relative to the world. */
  datatype Entry = Entry(path: string, isFile: bool, contents: Data)

  datatype Error = NotADirectory | NoCanonicalFiles | TooLong

  /** The parts of a path. */
  function Parts(path: string): (r: seq<string>)
    ensures r != []
  {
    if path == [] then [[]]
    else
      var rest := Parts(path[1..]);
      if path[0] == '/' then [[]] + rest else [[path[0]] + rest[0]] + rest[1..]
  }

  predicate Canonical(e: Entry) {
    var parts := Parts(e.path);
    && e.isFile
    && parts[|parts| - 1] !in VOLATILE_NAMES
    && forall p | p in parts :: p !in VOLATILE_DIRS
  }

  lemma {:induction false} PartsOfName(name: string)
    requires '/' !in name
    ensures Parts(name) == [name]
  {
    if name != [] {
      assert name[0] in name && forall c | c in name[1..] :: c in name;
      PartsOfName(name[1..]);
      assert name == [name[0]] + name[1..];
    }
  }

  /** The parts of a joined path are the parts of either side. */
  lemma {:induction false} PartsOfJoin(a: string, b: string)
    ensures Parts(a + "/" + b) == Parts(a) + Parts(b)
  {
    hide Parts;
    NoPath();
    if a == [] {
      PartsStep('/', b);
      assert a + "/" + b == ['/'] + b;
    } else {
      var x, rest := a[0], a[1..];
      assert a == [x] + rest && a + "/" + b == [x] + (rest + "/" + b);
      PartsOfJoin(rest, b);
      PartsStep(x, rest);
      PartsStep(x, rest + "/" + b);
      HeadsOfSum(Parts(rest), Parts(b));
    }
  }

  lemma NoPath()
    ensures Parts("") == [""]
  {
  }

  lemma PartsStep(x: char, rest: string)
    ensures Parts([x] + rest)
         == if x == '/' then [[]] + Parts(rest) else [[x] + Parts(rest)[0]] + Parts(rest)[1..]
  {
    assert ([x] + rest)[1..] == rest;
  }

  lemma HeadsOfSum(s: seq<string>, t: seq<string>)
    requires s != []
    ensures (s + t)[0] == s[0] && (s + t)[1..] == s[1..] + t
  {
  }

  /** A file in a directory counts exactly when neither is volatile, at any depth. */
  lemma CanonicalInDirectory(e: Entry, directory: string, name: string)
    requires e.isFile && e.path == directory + "/" + name && '/' !in name
    ensures Canonical(e)
            <==> name !in {"session.lock", "uid.dat", "logs", "crash-reports", "debug"}
                 && forall p | p in Parts(directory) :: p !in {"logs", "crash-reports", "debug"}
  {
    hide Parts;
    PartsOfJoin(directory, name);
    PartsOfName(name);
    var parts := Parts(directory) + [name];
    assert Parts(e.path) == parts && parts[|parts| - 1] == name;
    assert forall p | p in parts :: p in Parts(directory) || p == name;
    assert name in parts && forall p | p in Parts(directory) :: p in parts;
  }

  function Filter(es: seq<Entry>): seq<Entry> {
    if es == [] then [] else
      var n := |es| - 1;
      Filter(es[..n]) + if Canonical(es[n]) then [es[n]] else []
  }

  function Insert(e: Entry, s: seq<Entry>): seq<Entry> {
    if s == [] then [e]
    else if LexLe(e.path, s[0].path) then [e] + s
    else [s[0]] + Insert(e, s[1..])
  }

  function Sort(s: seq<Entry>): seq<Entry> {
    if s == [] then [] else Insert(s[|s| - 1], Sort(s[..|s| - 1]))
  }

  type Encoding = string -> Data

  function Record(encode: Encoding, e: Entry): Data {
    BigEndian(|encode(e.path)|, LENGTH_FIELD) + encode(e.path) + BigEndian(|e.contents|, LENGTH_FIELD) + e.contents
  }

  function Stream(encode: Encoding, s: seq<Entry>): Data {
    if s == [] then [] else
      var n := |s| - 1;
      Stream(encode, s[..n]) + Record(encode, s[n])
  }

  /** Both lengths fit their eight-byte fields; otherwise the conversion raises. */
  predicate Fits(encode: Encoding, e: Entry) {
    |encode(e.path)| < Pow256(LENGTH_FIELD) && |e.contents| < Pow256(LENGTH_FIELD)
  }

  /** The stream fed to the hash, for any enumeration of the directory. */
  function CanonicalStream(encode: Encoding, es: seq<Entry>): Data {
    Stream(encode, Sort(Filter(es)))
  }

  /** The digest, or the error raised. The digest function sees only the canonical stream. */
  method CanonicalHash<D>(encode: Encoding, digest: Data -> D, isDirectory: bool, es: seq<Entry>)
    returns (r: Result<D, Error>)
    ensures !isDirectory ==> r == Err(NotADirectory)
    ensures isDirectory && Filter(es) == [] ==> r == Err(NoCanonicalFiles)
    ensures isDirectory && Filter(es) != [] ==>
              r == if forall e | e in Sort(Filter(es)) :: Fits(encode, e)
                   then Ok(digest(CanonicalStream(encode, es))) else Err(TooLong)
  {
    hide Sort, Canonical, Record, Pow256;
    if !isDirectory {
      return Err(NotADirectory);
    }
    var files := [];
    for i := 0 to |es|
      invariant files == Filter(es[..i])
    {
      assert es[..i + 1][..i] == es[..i];
      if Canonical(es[i]) {
        files := files + [es[i]];
      }
    }
    assert es[..|es|] == es;
    if files == [] {
      return Err(NoCanonicalFiles);
    }
    var sorted := Sort(files);
    var fed: Data := [];
    for i := 0 to |sorted|
      invariant fed == Stream(encode, sorted[..i])
      invariant forall k | 0 <= k < i :: Fits(encode, sorted[k])
    {
      assert sorted[..i + 1][..i] == sorted[..i];
      if !Fits(encode, sorted[i]) {
        return Err(TooLong);
      }
      fed := fed + Record(encode, sorted[i]);
    }
    assert sorted[..|sorted|] == sorted;
    return Ok(digest(fed));
  }

  // ------------------------------------------------------------------ independence of the enumeration

  /** A file system names each entry once. */
  ghost predicate DistinctPaths(s: seq<Entry>) {
    forall i, j | 0 <= i < j < |s| :: s[i].path != s[j].path
  }

  ghost predicate Ascending(s: seq<Entry>) {
    forall i, j | 0 <= i < j < |s| :: Less(s[i].path, s[j].path)
  }

  function Members(s: seq<Entry>): set<Entry> {
    set e | e in s
  }

  lemma {:induction false} InsertMembers(e: Entry, s: seq<Entry>)
    ensures Members(Insert(e, s)) == Members(s) + {e}
  {
    hide LexLe;
    if s != [] && !LexLe(e.path, s[0].path) {
      InsertMembers(e, s[1..]);
      assert Members(s) == {s[0]} + Members(s[1..]);
      assert Members([s[0]] + Insert(e, s[1..])) == {s[0]} + Members(Insert(e, s[1..]));
    }
  }

  lemma {:induction false} InsertAscending(e: Entry, s: seq<Entry>)
    requires Ascending(s) && forall k | 0 <= k < |s| :: s[k].path != e.path
    ensures Ascending(Insert(e, s))
  {
    hide LexLe;
    if s != [] {
      LexTotal(e.path, s[0].path);
      if LexLe(e.path, s[0].path) {
        forall j | 0 < j < |s| ensures Less(e.path, s[j].path) {
          LessTransitive(e.path, s[0].path, s[j].path);
        }
      } else {
        InsertAscending(e, s[1..]);
        InsertMembers(e, s[1..]);
        var r := Insert(e, s[1..]);
        forall j | 0 <= j < |r| ensures Less(s[0].path, r[j].path) {
          assert r[j] in Members(r);
        }
      }
    }
  }

  lemma {:induction false} SortSpec(s: seq<Entry>)
    requires DistinctPaths(s)
    ensures Ascending(Sort(s)) && Members(Sort(s)) == Members(s)
  {
    if s != [] {
      var n := |s| - 1;
      SortSpec(s[..n]);
      var r := Sort(s[..n]);
      forall k | 0 <= k < |r| ensures r[k].path != s[n].path {
        assert r[k] in Members(r);
        assert r[k] in s[..n];
      }
      InsertAscending(s[n], r);
      InsertMembers(s[n], r);
      assert s == s[..n] + [s[n]];
    }
  }

  lemma {:induction false} AscendingUnique(s: seq<Entry>, t: seq<Entry>)
    requires Ascending(s) && Ascending(t) && Members(s) == Members(t)
    ensures s == t
  {
    hide LexLe;
    if s == [] {
      NoMembers(t);
    } else if t == [] {
      NoMembers(s);
    } else {
      FirstIsLeast(s, t);
      AscendingTail(s);
      AscendingTail(t);
      AscendingUnique(s[1..], t[1..]);
    }
  }

  lemma NoMembers(s: seq<Entry>)
    ensures s != [] ==> Members(s) != {}
  {
    if s != [] { assert s[0] in Members(s); }
  }

  lemma FirstIsLeast(s: seq<Entry>, t: seq<Entry>)
    requires s != [] && t != [] && Ascending(s) && Ascending(t) && Members(s) == Members(t)
    ensures s[0] == t[0]
  {
    hide LexLe;
    assert s[0] in Members(t) && t[0] in Members(s);
    var i :| 0 <= i < |t| && t[i] == s[0];
    var j :| 0 <= j < |s| && s[j] == t[0];
    if i > 0 && j > 0 {
      LexAntisymmetric(s[0].path, t[0].path);
    }
  }

  lemma AscendingTail(s: seq<Entry>)
    requires s != [] && Ascending(s)
    ensures Ascending(s[1..]) && Members(s[1..]) == Members(s) - {s[0]}
  {
  }

  lemma {:induction false} FilterSpec(es: seq<Entry>)
    ensures Members(Filter(es)) == set e | e in es && Canonical(e)
    ensures DistinctPaths(es) ==> DistinctPaths(Filter(es))
  {
    hide Canonical;
    if es != [] {
      var n := |es| - 1;
      FilterSpec(es[..n]);
      assert es == es[..n] + [es[n]];
      assert Members(Filter(es)) == Members(Filter(es[..n])) + if Canonical(es[n]) then {es[n]} else {};
      assert (set e | e in es && Canonical(e))
          == (set e | e in es[..n] && Canonical(e)) + if Canonical(es[n]) then {es[n]} else {};
      if DistinctPaths(es) {
        var r := Filter(es[..n]);
        forall k | 0 <= k < |r| ensures r[k].path != es[n].path {
          assert r[k] in Members(r);
          assert r[k] in es[..n];
        }
      }
    }
  }

  // ------------------------------------------------------------------ unique decodability

  ghost predicate Injective(encode: Encoding) {
    forall a, b :: encode(a) == encode(b) ==> a == b
  }

  lemma ThreePieces(h: Data, a: Data, x: Data)
    ensures var s := h + a + x;
            s[..|h|] == h && s[|h|..|h| + |a|] == a && s[|h| + |a|..] == x
  {
  }

  /** A length-prefixed field can be read off the front of a stream in one way only. */
  lemma FieldFirst(a: Data, b: Data, x: Data, y: Data)
    requires |a| < Pow256(LENGTH_FIELD) && |b| < Pow256(LENGTH_FIELD)
    requires BigEndian(|a|, LENGTH_FIELD) + a + x == BigEndian(|b|, LENGTH_FIELD) + b + y
    ensures a == b && x == y
  {
    hide BigEndian, Decode, Pow256;
    DecodeBigEndian(|a|, LENGTH_FIELD);
    DecodeBigEndian(|b|, LENGTH_FIELD);
    ThreePieces(BigEndian(|a|, LENGTH_FIELD), a, x);
    ThreePieces(BigEndian(|b|, LENGTH_FIELD), b, y);
  }

  /** The stream read front to back. */
  lemma {:induction false} StreamFirst(encode: Encoding, s: seq<Entry>)
    requires s != []
    ensures Stream(encode, s) == Record(encode, s[0]) + Stream(encode, s[1..])
  {
    hide Record;
    var n := |s| - 1;
    if n > 0 {
      StreamFirst(encode, s[..n]);
      assert s[..n][1..] == s[1..][..n - 1];
    } else {
      assert s[..0] == [] && s[1..] == [];
    }
  }

  lemma RecordPieces(encode: Encoding, e: Entry, x: Data)
    ensures Record(encode, e) + x
         == BigEndian(|encode(e.path)|, LENGTH_FIELD) + encode(e.path)
            + (BigEndian(|e.contents|, LENGTH_FIELD) + e.contents + x)
  {
    hide BigEndian;
  }

  lemma RecordFirst(encode: Encoding, e: Entry, f: Entry, x: Data, y: Data)
    requires Injective(encode) && Fits(encode, e) && Fits(encode, f) && e.isFile == f.isFile
    requires Record(encode, e) + x == Record(encode, f) + y
    ensures e == f && x == y
  {
    hide BigEndian, Record, Pow256;
    var p, q := encode(e.path), encode(f.path);
    var u := BigEndian(|e.contents|, LENGTH_FIELD) + e.contents + x;
    var v := BigEndian(|f.contents|, LENGTH_FIELD) + f.contents + y;
    RecordPieces(encode, e, x);
    RecordPieces(encode, f, y);
    FieldFirst(p, q, u, v);
    FieldFirst(e.contents, f.contents, x, y);
  }

  ghost predicate Writable(encode: Encoding, s: seq<Entry>) {
    forall k | 0 <= k < |s| :: Fits(encode, s[k]) && s[k].isFile
  }

  lemma {:induction false} StreamInjective(encode: Encoding, s: seq<Entry>, t: seq<Entry>)
    requires Injective(encode) && Writable(encode, s) && Writable(encode, t)
    requires Stream(encode, s) == Stream(encode, t)
    ensures s == t
  {
    hide Record, Fits;
    if s != [] { StreamFirst(encode, s); RecordNotEmpty(encode, s[0]); }
    if t != [] { StreamFirst(encode, t); RecordNotEmpty(encode, t[0]); }
    if s != [] && t != [] {
      RecordFirst(encode, s[0], t[0], Stream(encode, s[1..]), Stream(encode, t[1..]));
      StreamInjective(encode, s[1..], t[1..]);
    }
  }

  lemma RecordNotEmpty(encode: Encoding, e: Entry)
    ensures Record(encode, e) != []
  {
  }

  /** The files that count, as a set of path and contents. */
  function Identity(es: seq<Entry>): set<Entry> {
    set e | e in es && Canonical(e)
  }

  /**
   Two enumerations give the same stream exactly when the same files with the same contents
   count: order, directories and volatile files do not matter, and nothing else is forgotten.
   */
  lemma StreamIdentifiesFiles(encode: Encoding, es: seq<Entry>, fs: seq<Entry>)
    requires Injective(encode) && DistinctPaths(es) && DistinctPaths(fs)
    requires forall e | e in es || e in fs :: Canonical(e) ==> Fits(encode, e)
    ensures CanonicalStream(encode, es) == CanonicalStream(encode, fs) <==> Identity(es) == Identity(fs)
  {
    hide Fits, Stream, Sort, Filter, DistinctPaths;
    FilterSpec(es);
    FilterSpec(fs);
    SortSpec(Filter(es));
    SortSpec(Filter(fs));
    var s, t := Sort(Filter(es)), Sort(Filter(fs));
    if Identity(es) == Identity(fs) {
      AscendingUnique(s, t);
    }
    forall k | 0 <= k < |s| ensures Fits(encode, s[k]) && s[k].isFile {
      assert s[k] in Members(s);
    }
    forall k | 0 <= k < |t| ensures Fits(encode, t[k]) && t[k].isFile {
      assert t[k] in Members(t);
    }
    if Stream(encode, s) == Stream(encode, t) {
      StreamInjective(encode, s, t);
    }
  }
}
