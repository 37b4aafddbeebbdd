/** Shared vocabulary of the model: optional values, the cells of the
    tuples the parsers emit, little-endian byte decoding, first-occurrence
    de-duplication and the string operations (prefix, suffix, substring,
    code-point ordering, sorting) that the file filters rely on. */
module Common {

  datatype Option<T> = None | Some(value: T)

  /** An octet of a block file. */
  newtype byte = x: int | 0 <= x < 256

  /** One cell of a tuple as the edge list and the sinks see it: an integer,
      a string, a nested tuple (a raw `(txid, index)` source) or `None`. */
  datatype Value = Int(i: int) | Str(s: string) | Tuple(items: seq<Value>) | NoneV

  /** The tuple cell for an optional integer (`None` when absent). */
  function IntOrNone(x: Option<int>): (r: Value)
    ensures x.None? <==> r == NoneV
    ensures x.Some? ==> r == Int(x.value)
  {
    if x.Some? then Int(x.value) else NoneV
  }

  /** The tuple cell for an optional string (`None` when absent). */
  function StrOrNone(x: Option<string>): (r: Value)
    ensures x.None? <==> r == NoneV
    ensures x.Some? ==> r == Str(x.value)
  {
    if x.Some? then Str(x.value) else NoneV
  }

  function Min(a: int, b: int): int { if a <= b then a else b }

  // ---------------------------------------------------------------------
  // Little-endian unsigned integers (struct formats "<H", "<I", "<Q")

  function Pow256(k: nat): (r: nat)
    ensures r >= 1
  {
    if k == 0 then 1 else 256 * Pow256(k - 1)
  }

  /** The unsigned integer whose little-endian bytes are `b`. */
  function LittleEndian(b: seq<byte>): (r: nat)
    ensures r < Pow256(|b|)
  {
    if |b| == 0 then 0 else b[0] as nat + 256 * LittleEndian(b[1..])
  }

  /** The `k` little-endian bytes of `n` (taken modulo 256^k). */
  function EncodeLittleEndian(n: nat, k: nat): (r: seq<byte>)
    ensures |r| == k
  {
    if k == 0 then [] else [(n % 256) as byte] + EncodeLittleEndian(n / 256, k - 1)
  }

  lemma {:induction false} LittleEndianRoundTrip(n: nat, k: nat)
    requires n < Pow256(k)
    ensures LittleEndian(EncodeLittleEndian(n, k)) == n
  {
    if k > 0 {
      var q, m := n / 256, n % 256;
      var e := EncodeLittleEndian(n, k);
      assert e[1..] == EncodeLittleEndian(q, k - 1);
      DivBound(n, Pow256(k - 1));
      LittleEndianRoundTrip(q, k - 1);
      assert LittleEndian(e) == m + 256 * q;
    }
  }

  lemma DivBound(n: nat, p: nat)
    requires n < 256 * p
    ensures n / 256 < p
  {
  }

  // ---------------------------------------------------------------------
  // De-duplication (Python `set(u)`, iterated in first-occurrence order)

  predicate Distinct<T(==)>(s: seq<T>)
  {
    forall i, j :: 0 <= i < j < |s| ==> s[i] != s[j]
  }

  function Elements<T>(s: seq<T>): set<T>
  {
    set x | x in s
  }

  /** The distinct elements of `s`, each at the position of its first occurrence. */
  function Dedup<T(==,!new)>(s: seq<T>): (r: seq<T>)
    ensures forall x :: x in r <==> x in s
    ensures Distinct(r)
    ensures |r| <= |s|
    decreases |s|
  {
    if |s| == 0 then []
    else
      var d := Dedup(s[..|s| - 1]);
      assert forall x :: x in s <==> x in s[..|s| - 1] || x == s[|s| - 1];
      if s[|s| - 1] in d then d else d + [s[|s| - 1]]
  }

  lemma {:induction false} DistinctCardinality<T>(s: seq<T>)
    requires Distinct(s)
    ensures |Elements(s)| == |s|
  {
    if |s| > 0 {
      var t := s[..|s| - 1];
      DistinctCardinality(t);
      assert Elements(s) == Elements(t) + {s[|s| - 1]};
      assert s[|s| - 1] !in Elements(t);
    }
  }

  /** `Dedup(s)` has exactly as many elements as the set of `s`. */
  lemma DedupCardinality<T(!new)>(s: seq<T>)
    ensures |Dedup(s)| == |Elements(s)|
  {
    DistinctCardinality(Dedup(s));
    assert Elements(Dedup(s)) == Elements(s);
  }

  // ---------------------------------------------------------------------
  // Strings

  predicate StartsWith(s: string, p: string)
  {
    |p| <= |s| && s[..|p|] == p
  }

  predicate EndsWith(s: string, p: string)
  {
    |p| <= |s| && s[|s| - |p|..] == p
  }

  /** Python's `t in s` on strings. */
  predicate Contains(s: string, t: string)
    decreases |s|
  {
    StartsWith(s, t) || (|s| > 0 && Contains(s[1..], t))
  }

  lemma {:induction false} ContainsAt(s: string, t: string, i: nat)
    requires i + |t| <= |s| && s[i..i + |t|] == t
    ensures Contains(s, t)
  {
    if i > 0 {
      assert s[1..][i - 1..i - 1 + |t|] == s[i..i + |t|];
      ContainsAt(s[1..], t, i - 1);
    } else {
      assert s[..|t|] == t;
    }
  }

  /** Python's `os.path.join(dir, name)` for a name without a separator. */
  function Join(dir: string, name: string): (r: string)
    ensures EndsWith(r, name)
  {
    var r := if |dir| == 0 then name
             else if dir[|dir| - 1] == '/' then dir + name
             else dir + "/" + name;
    assert r[|r| - |name|..] == name;
    r
  }

  /** Python's `<=` on strings: lexicographic by code point, a prefix first. */
  predicate LessEq(a: string, b: string)
    decreases |a|
  {
    |a| == 0 || (|b| > 0 && (a[0] < b[0] || (a[0] == b[0] && LessEq(a[1..], b[1..]))))
  }

  lemma {:induction false} LessEqTotal(a: string, b: string)
    ensures LessEq(a, b) || LessEq(b, a)
    decreases |a|
  {
    if |a| > 0 && |b| > 0 && a[0] == b[0] {
      LessEqTotal(a[1..], b[1..]);
    }
  }

  lemma {:induction false} LessEqTransitive(a: string, b: string, c: string)
    requires LessEq(a, b) && LessEq(b, c)
    ensures LessEq(a, c)
    decreases |a|
  {
    if |a| > 0 && a[0] == b[0] && b[0] == c[0] {
      LessEqTransitive(a[1..], b[1..], c[1..]);
    }
  }

  predicate SortedStrings(s: seq<string>)
  {
    forall i, j :: 0 <= i < j < |s| ==> LessEq(s[i], s[j])
  }

  function InsertString(x: string, s: seq<string>): (r: seq<string>)
    requires SortedStrings(s)
    ensures SortedStrings(r)
    ensures multiset(r) == multiset(s) + multiset{x}
  {
    if |s| == 0 then [x]
    else if LessEq(x, s[0]) then
      InsertFront(x, s);
      [x] + s
    else
      var t := InsertString(x, s[1..]);
      assert s == [s[0]] + s[1..];
      InsertBehind(x, s, t);
      [s[0]] + t
  }

  lemma InsertFront(x: string, s: seq<string>)
    requires SortedStrings(s) && |s| > 0 && LessEq(x, s[0])
    ensures SortedStrings([x] + s)
  {
    forall i, j | 0 <= i < j < |[x] + s| ensures LessEq(([x] + s)[i], ([x] + s)[j]) {
      if i == 0 && j > 1 { LessEqTransitive(x, s[0], s[j - 1]); }
    }
  }

  lemma InsertBehind(x: string, s: seq<string>, t: seq<string>)
    requires SortedStrings(s) && |s| > 0 && !LessEq(x, s[0])
    requires SortedStrings(t) && multiset(t) == multiset(s[1..]) + multiset{x}
    ensures SortedStrings([s[0]] + t)
  {
    LessEqTotal(x, s[0]);
    var r := [s[0]] + t;
    forall i, j | 0 <= i < j < |r| ensures LessEq(r[i], r[j]) {
      if i == 0 {
        assert r[j] == t[j - 1];
        assert t[j - 1] in multiset(t);
        if t[j - 1] != x {
          assert t[j - 1] in multiset(s[1..]);
          var k :| 0 <= k < |s[1..]| && s[1..][k] == t[j - 1];
          assert s[k + 1] == t[j - 1];
        }
      } else {
        assert r[i] == t[i - 1] && r[j] == t[j - 1];
      }
    }
  }

  /** Python's `sorted` on a list of strings. */
  function SortStrings(s: seq<string>): (r: seq<string>)
    ensures SortedStrings(r)
    ensures multiset(r) == multiset(s)
  {
    if |s| == 0 then []
    else
      assert s == s[..|s| - 1] + [s[|s| - 1]];
      InsertString(s[|s| - 1], SortStrings(s[..|s| - 1]))
  }

  /** The names of `names` that start with `prefix` and end with `suffix`, in order. */
  function KeepNames(names: seq<string>, prefix: string, suffix: string): (r: seq<string>)
    ensures forall n :: n in r <==> n in names && StartsWith(n, prefix) && EndsWith(n, suffix)
  {
    if |names| == 0 then []
    else
      var rest := KeepNames(names[1..], prefix, suffix);
      assert forall n :: n in names <==> n == names[0] || n in names[1..];
      if StartsWith(names[0], prefix) && EndsWith(names[0], suffix) then [names[0]] + rest else rest
  }

  function JoinAll(dir: string, names: seq<string>): (r: seq<string>)
    ensures |r| == |names|
    ensures forall i :: 0 <= i < |names| ==> r[i] == Join(dir, names[i])
  {
    if |names| == 0 then [] else [Join(dir, names[0])] + JoinAll(dir, names[1..])
  }

  /** The directory-listing filter shared by `get_files` and `get_csv_files`:
      keep the names with the prefix and the suffix, join each with the
      directory and sort the joined paths. */
  function SelectFiles(dir: string, names: seq<string>, prefix: string, suffix: string): (r: seq<string>)
  {
    SortStrings(JoinAll(dir, KeepNames(names, prefix, suffix)))
  }

  /** What `SelectFiles` returns: a sorted list holding, once per matching
      name of the listing, that name joined with the directory, and nothing else. */
  lemma SelectFilesSpec(dir: string, names: seq<string>, prefix: string, suffix: string)
    ensures SortedStrings(SelectFiles(dir, names, prefix, suffix))
    ensures multiset(SelectFiles(dir, names, prefix, suffix))
         == multiset(JoinAll(dir, KeepNames(names, prefix, suffix)))
    ensures forall n :: n in names && StartsWith(n, prefix) && EndsWith(n, suffix)
              ==> Join(dir, n) in SelectFiles(dir, names, prefix, suffix)
    ensures forall p :: p in SelectFiles(dir, names, prefix, suffix)
              ==> exists n :: n in names && StartsWith(n, prefix) && EndsWith(n, suffix) && p == Join(dir, n)
  {
    var kept := KeepNames(names, prefix, suffix);
    var joined := JoinAll(dir, kept);
    var r := SelectFiles(dir, names, prefix, suffix);
    forall n | n in names && StartsWith(n, prefix) && EndsWith(n, suffix)
      ensures Join(dir, n) in r
    {
      var i :| 0 <= i < |kept| && kept[i] == n;
      assert joined[i] == Join(dir, n);
      assert Join(dir, n) in multiset(joined);
    }
    forall p | p in r
      ensures exists n :: n in names && StartsWith(n, prefix) && EndsWith(n, suffix) && p == Join(dir, n)
    {
      assert p in multiset(r);
      assert p in joined;
      var i :| 0 <= i < |joined| && joined[i] == p;
      assert kept[i] in kept;
    }
  }
}
