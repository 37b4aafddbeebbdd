/** The two pure pieces of the uploader: the column names of an edge table
    and the sanitiser applied to every text column before a parquet file is
    written. */
module Uploader {

  /** The six columns every raw edge table has, in order. */
  const BaseColumns: seq<string> := ["ts", "tx_id", "input_tx_id", "vout", "output_to", "output_index"]

  /** `get_columnnames(cvalue, cblk)`. */
  function ColumnNames(cvalue: bool, cblk: bool): (r: seq<string>)
    ensures |r| == 6 + (if cvalue then 1 else 0) + (if cblk then 1 else 0)
    ensures r[..6] == BaseColumns
    ensures cvalue ==> r[6] == "value"
    ensures cblk ==> r[|r| - 1] == "blk_file_nr"
    ensures "value" in r <==> cvalue
    ensures "blk_file_nr" in r <==> cblk
  {
    var withValue := if cvalue then BaseColumns + ["value"] else BaseColumns;
    if cblk then withValue + ["blk_file_nr"] else withValue
  }

  /** The regex class `[A-Za-z0-9]`. */
  predicate Alnum(c: char)
  {
    'A' <= c <= 'Z' || 'a' <= c <= 'z' || '0' <= c <= '9'
  }

  /** The length of the run of characters outside the class starting at `i`. */
  function RunLength(s: string, i: nat): (n: nat)
    requires i <= |s|
    ensures i + n <= |s|
    ensures forall k :: i <= k < i + n ==> !Alnum(s[k])
    ensures i + n == |s| || Alnum(s[i + n])
    decreases |s| - i
  {
    if i == |s| || Alnum(s[i]) then 0 else 1 + RunLength(s, i + 1)
  }

  /** `re.sub('[^A-Za-z0-9]+', '', s)` from position `i`: each maximal run
      of characters outside the class is replaced by nothing, scanning left
      to right. */
  function SubFrom(s: string, i: nat): string
    requires i <= |s|
    decreases |s| - i
  {
    if i == |s| then ""
    else if Alnum(s[i]) then [s[i]] + SubFrom(s, i + 1)
    else
      var n := RunLength(s, i);
      SubFrom(s, i + n)
  }

  /** The sanitiser lambda of `handle_parquet_data`, on the text `str(x)`. */
  function Sanitise(s: string): string
  {
    SubFrom(s, 0)
  }

  /** An independent reference: the characters of `s` in the class, in order. */
  function KeepAlnum(s: string): (r: string)
  {
    if |s| == 0 then "" else (if Alnum(s[0]) then [s[0]] else "") + KeepAlnum(s[1..])
  }

  lemma {:induction false} SkipRun(s: string, i: nat, n: nat)
    requires i + n <= |s|
    requires forall k :: i <= k < i + n ==> !Alnum(s[k])
    ensures KeepAlnum(s[i..]) == KeepAlnum(s[i + n..])
    decreases n
  {
    if n > 0 {
      assert s[i..][1..] == s[i + 1..];
      SkipRun(s, i + 1, n - 1);
    }
  }

  lemma {:induction false} SubFromIsFilter(s: string, i: nat)
    requires i <= |s|
    ensures SubFrom(s, i) == KeepAlnum(s[i..])
    decreases |s| - i
  {
    if i < |s| {
      if Alnum(s[i]) {
        assert s[i..][1..] == s[i + 1..];
        SubFromIsFilter(s, i + 1);
      } else {
        var n := RunLength(s, i);
        SkipRun(s, i, n);
        SubFromIsFilter(s, i + n);
      }
    }
  }

  /** Removing the runs keeps exactly the letters and digits, in their order. */
  lemma SanitiseIsFilter(s: string)
    ensures Sanitise(s) == KeepAlnum(s)
  {
    SubFromIsFilter(s, 0);
    assert s[0..] == s;
  }

  lemma {:induction false} KeepAlnumOnly(s: string)
    ensures forall k :: 0 <= k < |KeepAlnum(s)| ==> Alnum(KeepAlnum(s)[k])
    ensures |KeepAlnum(s)| <= |s|
  {
    if |s| > 0 {
      KeepAlnumOnly(s[1..]);
    }
  }

  lemma {:induction false} KeepAlnumFixed(s: string)
    requires forall k :: 0 <= k < |s| ==> Alnum(s[k])
    ensures KeepAlnum(s) == s
  {
    if |s| > 0 {
      KeepAlnumFixed(s[1..]);
    }
  }

  /** The sanitiser's output holds only ASCII letters and digits, is never
      longer than its input, leaves a clean string as it is, and applying it
      twice is the same as once. */
  lemma SanitiseProperties(s: string)
    ensures forall k :: 0 <= k < |Sanitise(s)| ==> Alnum(Sanitise(s)[k])
    ensures |Sanitise(s)| <= |s|
    ensures (forall k :: 0 <= k < |s| ==> Alnum(s[k])) ==> Sanitise(s) == s
    ensures Sanitise(Sanitise(s)) == Sanitise(s)
  {
    SanitiseIsFilter(s);
    KeepAlnumOnly(s);
    if forall k :: 0 <= k < |s| ==> Alnum(s[k]) {
      KeepAlnumFixed(s);
    }
    SanitiseIsFilter(Sanitise(s));
    KeepAlnumFixed(Sanitise(s));
  }
}
