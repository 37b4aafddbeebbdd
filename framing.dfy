/** Block-file framing of Bitcoin Core's `blk*.dat` files: the scanner that
    finds the network magic, reads the 4-byte little-endian length and cuts
    out the block body; the directory filter; the file-number extraction;
    and the per-file start/end gate of `get_unordered_blocks`. */
module Framing {
  import opened Common

  /** The mainnet network magic that opens every frame. */
  const Magic: seq<byte> := [0xF9, 0xBE, 0xB4, 0xD9]

  /** The raw block bodies a scan yields, and whether it ended on a frame
      whose length field runs past the buffer (`struct.error` in the source). */
  datatype ScanResult = ScanResult(blocks: seq<seq<byte>>, truncated: bool)

  predicate MagicAt(raw: seq<byte>, i: nat)
  {
    i + 4 <= |raw| && raw[i..i + 4] == Magic
  }

  /** The magic test byte by byte. */
  predicate MagicBytes(raw: seq<byte>, i: nat)
    requires i + 4 <= |raw|
  {
    raw[i] == 0xF9 && raw[i + 1] == 0xBE && raw[i + 2] == 0xB4 && raw[i + 3] == 0xD9
  }

  /** What scanning `raw` from `offset` on yields. */
  function Scan(raw: seq<byte>, offset: nat): ScanResult
    decreases |raw| - offset
  {
    if offset + 4 >= |raw| then ScanResult([], false)
    else if MagicBytes(raw, offset) then
      if |raw| < offset + 8 then ScanResult([], true)
      else
        var size := LittleEndian(raw[offset + 4..offset + 8]);
        var next := offset + 8 + size;
        var rest := Scan(raw, next);
        ScanResult([raw[offset + 8..Min(next, |raw|)]] + rest.blocks, rest.truncated)
    else Scan(raw, offset + 1)
  }

  /** One frame of the scan: its body, then the scan after it. */
  lemma ScanAtMagic(raw: seq<byte>, o: nat)
    requires o + 8 <= |raw| && raw[o..o + 4] == Magic
    ensures var next := o + 8 + LittleEndian(raw[o + 4..o + 8]);
      Scan(raw, o) == ScanResult([raw[o + 8..Min(next, |raw|)]] + Scan(raw, next).blocks, Scan(raw, next).truncated)
  {
  }

  lemma ScanPastOther(raw: seq<byte>, o: nat)
    requires o + 4 < |raw| && raw[o..o + 4] != Magic
    ensures Scan(raw, o) == Scan(raw, o + 1)
  {
  }

  /** `get_blocks`: yields every framed block body of the buffer, in order. */
  method GetBlocks(raw: seq<byte>) returns (blocks: seq<seq<byte>>, blockCount: nat, truncated: bool)
    ensures ScanResult(blocks, truncated) == Scan(raw, 0)
    ensures blockCount == |blocks|
  {
    var length := |raw|;
    var offset: nat := 0;
    blocks, blockCount, truncated := [], 0, false;
    while offset < length - 4
      invariant Scan(raw, 0) == ScanResult(blocks + Scan(raw, offset).blocks, Scan(raw, offset).truncated)
      invariant blockCount == |blocks|
      decreases length - offset
    {
      ghost var at := offset;
      if raw[offset..offset + 4] == Magic {
        offset := offset + 4;
        if length - offset < 4 {
          truncated := true;
          return;
        }
        ScanAtMagic(raw, at);
        var size := LittleEndian(raw[offset..offset + 4]);
        offset := offset + 4 + size;
        blockCount := blockCount + 1;
        var body := raw[offset - size..Min(offset, length)];
        assert (blocks + [body]) + Scan(raw, offset).blocks == blocks + ([body] + Scan(raw, offset).blocks);
        blocks := blocks + [body];
      } else {
        ScanPastOther(raw, at);
        offset := offset + 1;
      }
    }
  }

  /** A well-formed frame: magic, little-endian length, body. */
  function Frame(body: seq<byte>): (r: seq<byte>)
    requires |body| < Pow256(4)
    ensures |r| == 8 + |body|
  {
    Magic + EncodeLittleEndian(|body|, 4) + body
  }

  predicate Frameable(bodies: seq<seq<byte>>)
  {
    forall k :: 0 <= k < |bodies| ==> |bodies[k]| < Pow256(4)
  }

  function Frames(bodies: seq<seq<byte>>): seq<byte>
    requires Frameable(bodies)
  {
    if |bodies| == 0 then [] else Frame(bodies[0]) + Frames(bodies[1..])
  }

  /** `r` sits in `raw` from position `d` to the end. */
  predicate Shifted(raw: seq<byte>, r: seq<byte>, d: nat)
  {
    |raw| == d + |r| && forall i :: 0 <= i < |r| ==> raw[d + i] == r[i]
  }

  lemma SliceShifted(raw: seq<byte>, r: seq<byte>, d: nat, a: nat, b: nat)
    requires Shifted(raw, r, d) && a <= b <= |r|
    ensures raw[d + a..d + b] == r[a..b]
  {
    assert forall i :: 0 <= i < b - a ==> raw[d + a..d + b][i] == raw[d + a + i] && r[a..b][i] == r[a + i];
  }

  lemma {:induction false} ScanShifted(raw: seq<byte>, r: seq<byte>, d: nat, k: nat)
    requires Shifted(raw, r, d)
    ensures Scan(raw, d + k) == Scan(r, k)
    decreases |r| - k
  {
    var o := d + k;
    if k + 4 < |r| {
      SliceShifted(raw, r, d, k, k + 4);
      if r[k..k + 4] == Magic {
        if |r| >= k + 8 {
          SliceShifted(raw, r, d, k + 4, k + 8);
          var size := LittleEndian(r[k + 4..k + 8]);
          var m := Min(k + 8 + size, |r|);
          SliceShifted(raw, r, d, k + 8, m);
          assert Min(o + 8 + size, |raw|) == d + m;
          ScanShifted(raw, r, d, k + 8 + size);
          assert o + 8 + size == d + (k + 8 + size);
        }
      } else {
        ScanShifted(raw, r, d, k + 1);
      }
    }
  }

  /** The scan only looks at positions relative to its offset. */
  lemma ScanShift(p: seq<byte>, r: seq<byte>, k: nat)
    ensures Scan(p + r, |p| + k) == Scan(r, k)
  {
    ScanShifted(p + r, r, |p|, k);
  }

  /** A frame at the front of the buffer yields its body, and the scan
      resumes right after it. */
  lemma ScanFrame(body: seq<byte>, rest: seq<byte>)
    requires |body| < Pow256(4)
    ensures Scan(Frame(body) + rest, 0).blocks == [body] + Scan(rest, 0).blocks
    ensures Scan(Frame(body) + rest, 0).truncated == Scan(rest, 0).truncated
  {
    var f := Frame(body);
    var raw := f + rest;
    assert raw[0..4] == Magic;
    assert raw[4..8] == EncodeLittleEndian(|body|, 4);
    LittleEndianRoundTrip(|body|, 4);
    assert raw[8..8 + |body|] == body;
    ScanShift(f, rest, 0);
  }

  /** Round trip: a stream of well-formed frames yields exactly their
      bodies, in order, and no truncation. */
  lemma {:induction false} ScanFrames(bodies: seq<seq<byte>>)
    requires Frameable(bodies)
    ensures Scan(Frames(bodies), 0) == ScanResult(bodies, false)
  {
    if |bodies| > 0 {
      ScanFrames(bodies[1..]);
      ScanFrame(bodies[0], Frames(bodies[1..]));
      assert bodies == [bodies[0]] + bodies[1..];
    }
  }

  /** Two concatenated frames yield their two bodies, in order. */
  lemma TwoFrames(b1: seq<byte>, b2: seq<byte>)
    requires |b1| < Pow256(4) && |b2| < Pow256(4)
    ensures Scan(Frame(b1) + Frame(b2), 0) == ScanResult([b1, b2], false)
  {
    var bodies := [b1, b2];
    assert bodies[1..] == [b2] && [b2][1..] == [];
    assert Frames([b2]) == Frame(b2) + Frames([]);
    assert Frames([b2]) == Frame(b2);
    assert Frames(bodies) == Frame(b1) + Frames([b2]);
    ScanFrames(bodies);
  }

  /** Bytes that do not start a magic are skipped one at a time. */
  lemma {:induction false} ScanSkipsFrom(g: seq<byte>, rest: seq<byte>, i: nat)
    requires i <= |g|
    requires forall j :: i <= j < |g| ==> !MagicAt(g + rest, j)
    ensures Scan(g + rest, i) == Scan(rest, 0)
    decreases |g| - i
  {
    var raw := g + rest;
    if i == |g| {
      ScanShift(g, rest, 0);
    } else if i + 4 >= |raw| {
      assert Scan(rest, 0) == ScanResult([], false);
    } else {
      assert !MagicAt(raw, i);
      ScanSkipsFrom(g, rest, i + 1);
    }
  }

  /** Garbage in front of the frames is ignored, as long as no magic starts inside it. */
  lemma ScanSkipsGarbage(g: seq<byte>, rest: seq<byte>)
    requires forall j :: 0 <= j < |g| ==> !MagicAt(g + rest, j)
    ensures Scan(g + rest, 0) == Scan(rest, 0)
  {
    ScanSkipsFrom(g, rest, 0);
  }

  /** Bytes consumed by yielding `blocks`: each body plus its 8-byte header. */
  function FramedSize(blocks: seq<seq<byte>>): nat
  {
    if |blocks| == 0 then 0 else 8 + |blocks[0]| + FramedSize(blocks[1..])
  }

  /** The yielded bodies (with their headers) never extend past the buffer. */
  lemma {:induction false} ScanWithinBuffer(raw: seq<byte>, offset: nat)
    requires offset <= |raw|
    ensures offset + FramedSize(Scan(raw, offset).blocks) <= |raw|
    decreases |raw| - offset
  {
    if offset + 4 < |raw| {
      if raw[offset..offset + 4] == Magic {
        if |raw| >= offset + 8 {
          var size := LittleEndian(raw[offset + 4..offset + 8]);
          var next := offset + 8 + size;
          var s := Scan(raw, offset);
          assert s.blocks[1..] == Scan(raw, next).blocks;
          if next <= |raw| {
            ScanWithinBuffer(raw, next);
          } else {
            assert Scan(raw, next).blocks == [];
          }
        }
      } else {
        ScanWithinBuffer(raw, offset + 1);
      }
    }
  }

  // ---------------------------------------------------------------------
  // Files

  /** `get_files`: a non-directory path (`listing == None`) is returned as
      is; a directory's names are kept if they look like `blk*.dat`, joined
      with the directory and sorted. */
  function GetFiles(path: string, listing: Option<seq<string>>): (r: seq<string>)
    ensures listing.None? ==> r == [path]
  {
    if listing.None? then [path] else SelectFiles(path, listing.value, "blk", ".dat")
  }

  lemma GetFilesSpec(path: string, names: seq<string>)
    ensures SortedStrings(GetFiles(path, Some(names)))
    ensures multiset(GetFiles(path, Some(names))) == multiset(JoinAll(path, KeepNames(names, "blk", ".dat")))
    ensures forall n :: n in names && StartsWith(n, "blk") && EndsWith(n, ".dat")
              ==> Join(path, n) in GetFiles(path, Some(names))
    ensures forall p :: p in GetFiles(path, Some(names))
              ==> exists n :: n in names && StartsWith(n, "blk") && EndsWith(n, ".dat") && p == Join(path, n)
  {
    SelectFilesSpec(path, names, "blk", ".dat");
  }

  predicate IsDigit(c: char) { '0' <= c <= '9' }

  predicate FiveDigitsAt(s: string, i: nat)
  {
    i + 5 <= |s| && forall k :: i <= k < i + 5 ==> IsDigit(s[k])
  }

  /** The leftmost position at or after `i` where five digits start
      (`re.search("([0-9]{5})", s)`). */
  function FindFiveDigits(s: string, i: nat): (r: Option<nat>)
    ensures r.Some? ==> i <= r.value && FiveDigitsAt(s, r.value)
    ensures r.Some? ==> forall j :: i <= j < r.value ==> !FiveDigitsAt(s, j)
    ensures r.None? ==> forall j :: i <= j ==> !FiveDigitsAt(s, j)
    decreases |s| - i
  {
    if i + 5 > |s| then None
    else if FiveDigitsAt(s, i) then Some(i)
    else FindFiveDigits(s, i + 1)
  }

  /** Decimal value of a digit string, most significant digit first. */
  function DecimalValue(d: string): nat
  {
    if |d| == 0 then 0
    else 10 * DecimalValue(d[..|d| - 1]) + (if IsDigit(d[|d| - 1]) then (d[|d| - 1] - '0') as nat else 0)
  }

  /** `str.lstrip("0")`. */
  function StripLeadingZeros(d: string): (r: string)
    ensures |r| <= |d| && r == d[|d| - |r|..]
    ensures r == [] || r[0] != '0'
  {
    if |d| > 0 && d[0] == '0' then StripLeadingZeros(d[1..]) else d
  }

  /** `file_number`: the value of the first run of five digits; `None`
      where the source's `re.search(...).group()` fails on a name without one. */
  function FileNumber(s: string): Option<nat>
  {
    match FindFiveDigits(s, 0)
    case None => None
    case Some(i) =>
      var m := s[i..i + 5];
      if m == "00000" then Some(0) else Some(DecimalValue(StripLeadingZeros(m)))
  }

  lemma {:induction false} DecimalValueUnderscore(d: string, n: nat)
    requires n <= |d|
    ensures DecimalValue(d) == DecimalValue(d[..n]) * Pow10(|d| - n) + DecimalValue(d[n..])
    decreases |d|
  {
    if n < |d| {
      var d' := d[..|d| - 1];
      var c := if IsDigit(d[|d| - 1]) then (d[|d| - 1] - '0') as nat else 0;
      assert d'[..n] == d[..n];
      DecimalValueUnderscore(d', n);
      var a, b, p := DecimalValue(d[..n]), DecimalValue(d'[n..]), Pow10(|d'| - n);
      var t := d[n..];
      assert t[..|t| - 1] == d'[n..];
      assert t[|t| - 1] == d[|d| - 1];
      assert DecimalValue(t) == 10 * b + c;
      assert DecimalValue(d) == 10 * DecimalValue(d') + c;
      assert Pow10(|d| - n) == 10 * p;
      ShiftDigit(a, p, b, c);
    } else {
      assert d[n..] == [] && d[..n] == d;
    }
  }

  lemma ShiftDigit(a: nat, p: nat, b: nat, c: nat)
    ensures 10 * (a * p + b) + c == a * (10 * p) + (10 * b + c)
  {
  }

  lemma {:induction false} ZerosValue(z: string)
    requires forall k :: 0 <= k < |z| ==> z[k] == '0'
    ensures DecimalValue(z) == 0
  {
    if |z| > 0 {
      ZerosValue(z[..|z| - 1]);
    }
  }

  /** Stripping leading zeros never changes a digit string's value. */
  lemma StripKeepsValue(d: string)
    ensures DecimalValue(StripLeadingZeros(d)) == DecimalValue(d)
  {
    var r := StripLeadingZeros(d);
    var n := |d| - |r|;
    StripPrefixIsZeros(d);
    ZerosValue(d[..n]);
    DecimalValueUnderscore(d, n);
  }

  lemma {:induction false} StripPrefixIsZeros(d: string)
    ensures forall k :: 0 <= k < |d| - |StripLeadingZeros(d)| ==> d[k] == '0'
  {
    if |d| > 0 && d[0] == '0' {
      StripPrefixIsZeros(d[1..]);
    }
  }

  /** `file_number` is the decimal value of the leftmost five-digit run,
      and is `None` exactly when there is no such run. */
  lemma FileNumberSpec(s: string)
    ensures FileNumber(s).None? <==> forall j :: 0 <= j ==> !FiveDigitsAt(s, j)
    ensures FileNumber(s).Some? ==>
      var i := FindFiveDigits(s, 0).value;
      FiveDigitsAt(s, i) && (forall j :: 0 <= j < i ==> !FiveDigitsAt(s, j))
      && FileNumber(s).value == DecimalValue(s[i..i + 5]) && FileNumber(s).value < 100000
  {
    match FindFiveDigits(s, 0)
    case None =>
    case Some(i) =>
      var m := s[i..i + 5];
      if m == "00000" {
        ZerosValue(m);
      } else {
        StripKeepsValue(m);
      }
      DecimalBound(m);
      assert Pow10(5) == 100000;
  }

  function Pow10(k: nat): (r: nat)
    ensures r >= 1
  {
    if k == 0 then 1 else 10 * Pow10(k - 1)
  }

  lemma {:induction false} DecimalBound(d: string)
    ensures DecimalValue(d) < Pow10(|d|)
  {
    if |d| > 0 {
      DecimalBound(d[..|d| - 1]);
    }
  }

  function DigitChar(n: nat): (c: char)
    requires n < 10
    ensures IsDigit(c)
  {
    ('0' as int + n) as char
  }

  /** The `k`-digit zero-padded decimal rendering of `n` (Bitcoin Core's
      `blk%05u.dat` uses `k == 5`). */
  function PadDigits(n: nat, k: nat): (r: string)
    ensures |r| == k
    ensures forall j :: 0 <= j < k ==> IsDigit(r[j])
  {
    if k == 0 then [] else PadDigits(n / 10, k - 1) + [DigitChar(n % 10)]
  }

  lemma {:induction false} PadDigitsRoundTrip(n: nat, k: nat)
    requires n < Pow10(k)
    ensures DecimalValue(PadDigits(n, k)) == n
  {
    if k > 0 {
      var r := PadDigits(n, k);
      assert r[..k - 1] == PadDigits(n / 10, k - 1);
      PadDigitsRoundTrip(n / 10, k - 1);
    }
  }

  /** Round trip with Bitcoin Core's naming: `file_number("blk%05u.dat" % n) == n`. */
  lemma FileNumberOfBlkName(n: nat)
    requires n < 100000
    ensures FileNumber("blk" + PadDigits(n, 5) + ".dat") == Some(n)
  {
    var s := "blk" + PadDigits(n, 5) + ".dat";
    assert s[0] == 'b' && s[1] == 'l' && s[2] == 'k';
    assert !IsDigit(s[0]) && !IsDigit(s[1]) && !IsDigit(s[2]);
    assert !FiveDigitsAt(s, 0) && !FiveDigitsAt(s, 1) && !FiveDigitsAt(s, 2);
    assert FiveDigitsAt(s, 3);
    assert s[3..8] == PadDigits(n, 5);
    FileNumberSpec(s);
    PadDigitsRoundTrip(n, 5);
  }

  // ---------------------------------------------------------------------
  // The per-file gate of `get_unordered_blocks`

  /** `str(x)` for an optional path fragment. */
  function PyStr(x: Option<string>): string
  {
    if x.None? then "None" else x.value
  }

  /** Python truthiness of an optional string. */
  predicate Truthy(x: Option<string>)
  {
    x.Some? && x.value != ""
  }

  /** The `start` flag after visiting the first `n` files of `files`. */
  function FlagAfter(files: seq<string>, n: nat, customStart: Option<string>, customEnd: Option<string>): bool
    requires n <= |files|
  {
    if n == 0 then !Truthy(customStart)
    else
      var f := files[n - 1];
      var prev := FlagAfter(files, n - 1, customStart, customEnd);
      var set_ := if Contains(f, PyStr(customStart)) then true else prev;
      if Contains(f, PyStr(customEnd)) then false else set_
  }

  /** None of the files `j` to `n - 1` names the end marker. */
  predicate NoEndFrom(files: seq<string>, n: nat, customEnd: Option<string>, j: nat)
    requires n <= |files|
  {
    forall k :: j <= k < n ==> !Contains(files[k], PyStr(customEnd))
  }

  /** File `j` contains the start marker and none of the files from `j` to
      `n - 1` contains the end marker. */
  predicate OpensAt(files: seq<string>, n: nat, customStart: Option<string>, customEnd: Option<string>, j: nat)
    requires n <= |files|
  {
    j < n && Contains(files[j], PyStr(customStart)) && NoEndFrom(files, n, customEnd, j)
  }

  /** The gate's reference definition over the first `n` files: some file at
      or after the last end marker contains the start marker, or no start
      marker was given and no file so far contains the end marker. */
  ghost predicate Opened(files: seq<string>, n: nat, customStart: Option<string>, customEnd: Option<string>)
    requires n <= |files|
  {
    (exists j :: OpensAt(files, n, customStart, customEnd, j))
    || (!Truthy(customStart) && NoEndFrom(files, n, customEnd, 0))
  }

  lemma OpenedEndHit(files: seq<string>, n: nat, customStart: Option<string>, customEnd: Option<string>)
    requires 0 < n <= |files| && Contains(files[n - 1], PyStr(customEnd))
    ensures !Opened(files, n, customStart, customEnd)
  {
    forall j: nat | j < n ensures !NoEndFrom(files, n, customEnd, j) {
      assert Contains(files[n - 1], PyStr(customEnd));
    }
  }

  lemma OpenedStep(files: seq<string>, n: nat, customStart: Option<string>, customEnd: Option<string>)
    requires 0 < n <= |files| && !Contains(files[n - 1], PyStr(customEnd))
    ensures Opened(files, n, customStart, customEnd) <==>
      Contains(files[n - 1], PyStr(customStart)) || Opened(files, n - 1, customStart, customEnd)
  {
    var m := n - 1;
    forall j: nat | j < m
      ensures OpensAt(files, n, customStart, customEnd, j) <==> OpensAt(files, m, customStart, customEnd, j)
    {
    }
    if Contains(files[m], PyStr(customStart)) {
      assert OpensAt(files, n, customStart, customEnd, m);
    } else {
      forall j | OpensAt(files, n, customStart, customEnd, j)
        ensures OpensAt(files, m, customStart, customEnd, j)
      {
        assert j != m;
      }
      if Opened(files, m, customStart, customEnd) && !NoEndFrom(files, m, customEnd, 0) {
        var j :| OpensAt(files, m, customStart, customEnd, j);
        assert OpensAt(files, n, customStart, customEnd, j);
      }
    }
  }

  /** The flag agrees with the reference definition: set by a file naming
      the start, cleared by one naming the end, kept otherwise. */
  lemma {:induction false} FlagAfterSpec(files: seq<string>, n: nat, customStart: Option<string>, customEnd: Option<string>)
    requires n <= |files|
    ensures FlagAfter(files, n, customStart, customEnd) <==> Opened(files, n, customStart, customEnd)
  {
    if n > 0 {
      FlagAfterSpec(files, n - 1, customStart, customEnd);
      if Contains(files[n - 1], PyStr(customEnd)) {
        OpenedEndHit(files, n, customStart, customEnd);
      } else {
        OpenedStep(files, n, customStart, customEnd);
      }
    }
  }

  /** The files among the first `n` whose blocks are yielded, in order. */
  function SelectedFiles(files: seq<string>, n: nat, customStart: Option<string>, customEnd: Option<string>): seq<string>
    requires n <= |files|
  {
    if n == 0 then []
    else
      SelectedFiles(files, n - 1, customStart, customEnd)
      + (if FlagAfter(files, n, customStart, customEnd) then [files[n - 1]] else [])
  }

  /** What scanning the selected files in order yields; a truncated frame
      ends the whole iteration. */
  function ScanFiles(files: seq<string>, read: string -> seq<byte>): ScanResult
  {
    if |files| == 0 then ScanResult([], false)
    else
      var pre := ScanFiles(files[..|files| - 1], read);
      if pre.truncated then pre
      else
        var s := Scan(read(files[|files| - 1]), 0);
        ScanResult(pre.blocks + s.blocks, s.truncated)
  }

  /** How the iteration of `get_unordered_blocks` ended: every file was
      visited, a frame was truncated (`struct.error`), or the progress line's
      `file_number` met a path without a five-digit run (AttributeError on
      `None.group()`). */
  datatype Stop = Exhausted | Truncated | Unnumbered(path: string)

  /** The blocks yielded so far and how the iteration ended. */
  datatype Gathering = Gathering(blocks: seq<seq<byte>>, stop: Stop)

  /** A scan of the selected files, read as an ending of the iteration. */
  function AsGathering(r: ScanResult): Gathering
  {
    Gathering(r.blocks, if r.truncated then Truncated else Exhausted)
  }

  /** The path has a five-digit run, so `file_number` returns a value. */
  predicate HasNumber(s: string)
  {
    FindFiveDigits(s, 0).Some?
  }

  lemma HasNumberIsFileNumber(s: string)
    ensures HasNumber(s) <==> FileNumber(s).Some?
  {
  }

  /** Every one of the first `n` paths has a five-digit run. */
  predicate Numbered(files: seq<string>, n: nat)
    requires n <= |files|
  {
    forall k :: 0 <= k < n ==> HasNumber(files[k])
  }

  /** The loop of `get_unordered_blocks` after its first `n` files: the
      progress line reads the file number of every path, the flag decides
      whether file `n - 1` is scanned, and a truncated frame or a path
      without a number stops the iteration for good. */
  function Gathered(files: seq<string>, n: nat, customStart: Option<string>, customEnd: Option<string>,
                    read: string -> seq<byte>): Gathering
    requires n <= |files|
  {
    if n == 0 then Gathering([], Exhausted)
    else
      var pre := Gathered(files, n - 1, customStart, customEnd, read);
      if pre.stop != Exhausted then pre
      else if !HasNumber(files[n - 1]) then Gathering(pre.blocks, Unnumbered(files[n - 1]))
      else if !FlagAfter(files, n, customStart, customEnd) then pre
      else
        var s := Scan(read(files[n - 1]), 0);
        Gathering(pre.blocks + s.blocks, if s.truncated then Truncated else Exhausted)
  }

  /** Scanning one more selected file. */
  lemma ScanFilesSnoc(sel: seq<string>, f: string, read: string -> seq<byte>)
    ensures ScanFiles(sel + [f], read)
         == var pre := ScanFiles(sel, read);
            if pre.truncated then pre
            else ScanResult(pre.blocks + Scan(read(f), 0).blocks, Scan(read(f), 0).truncated)
  {
    assert (sel + [f])[..|sel|] == sel;
  }

  /** When every path has a number, the loop's result is the scan of the
      files the gate selects. */
  lemma {:induction false} GatheredIsScanOfSelected(files: seq<string>, n: nat, customStart: Option<string>,
                                                    customEnd: Option<string>, read: string -> seq<byte>)
    requires n <= |files| && Numbered(files, n)
    ensures Gathered(files, n, customStart, customEnd, read)
         == AsGathering(ScanFiles(SelectedFiles(files, n, customStart, customEnd), read))
  {
    if n > 0 {
      assert Numbered(files, n - 1);
      GatheredIsScanOfSelected(files, n - 1, customStart, customEnd, read);
      var pre := SelectedFiles(files, n - 1, customStart, customEnd);
      if FlagAfter(files, n, customStart, customEnd) {
        assert SelectedFiles(files, n, customStart, customEnd) == pre + [files[n - 1]];
        ScanFilesSnoc(pre, files[n - 1], read);
      } else {
        assert SelectedFiles(files, n, customStart, customEnd) == pre by {
          assert pre + [] == pre;
        }
      }
    }
  }

  /** Once the iteration has stopped, later files add nothing. */
  lemma {:induction false} GatheredAfterStop(files: seq<string>, i: nat, n: nat, customStart: Option<string>,
                                             customEnd: Option<string>, read: string -> seq<byte>)
    requires i <= n <= |files|
    requires Gathered(files, i, customStart, customEnd, read).stop != Exhausted
    ensures Gathered(files, n, customStart, customEnd, read) == Gathered(files, i, customStart, customEnd, read)
    decreases n - i
  {
    if i < n {
      GatheredAfterStop(files, i, n - 1, customStart, customEnd, read);
    }
  }

  /** The first path without a number ends the iteration, flag or no flag:
      what went before it is kept, unless a truncated frame came first. */
  lemma GatheredStopsAtUnnumbered(files: seq<string>, k: nat, n: nat, customStart: Option<string>,
                                  customEnd: Option<string>, read: string -> seq<byte>)
    requires k < n <= |files| && Numbered(files, k) && !HasNumber(files[k])
    ensures var r := ScanFiles(SelectedFiles(files, k, customStart, customEnd), read);
      Gathered(files, n, customStart, customEnd, read)
      == if r.truncated then AsGathering(r) else Gathering(r.blocks, Unnumbered(files[k]))
  {
    var r := ScanFiles(SelectedFiles(files, k, customStart, customEnd), read);
    var g := if r.truncated then AsGathering(r) else Gathering(r.blocks, Unnumbered(files[k]));
    assert Gathered(files, k + 1, customStart, customEnd, read) == g by {
      GatheredIsScanOfSelected(files, k, customStart, customEnd, read);
    }
    GatheredAfterStop(files, k + 1, n, customStart, customEnd, read);
  }

  /** A reported path is one of the listed files and has no number. */
  lemma {:induction false} GatheredUnnumberedPath(files: seq<string>, n: nat, customStart: Option<string>,
                                                  customEnd: Option<string>, read: string -> seq<byte>)
    requires n <= |files|
    ensures var g := Gathered(files, n, customStart, customEnd, read);
      g.stop.Unnumbered? ==> g.stop.path in files[..n] && !HasNumber(g.stop.path)
  {
    if n > 0 {
      GatheredUnnumberedPath(files, n - 1, customStart, customEnd, read);
      assert files[..n - 1] <= files[..n];
    }
  }

  /** The parsers call `get_unordered_blocks(blk_file)` on a `Blockchain`
      over the whole directory, so `blk_file` is the start marker and the end
      marker is `None`. Once a file names the marker the flag is never
      cleared (no path contains `"None"`), so the call selects that file and
      every file after it, not that file alone. */
  lemma {:induction false} ParserCallSelectsSuffix(files: seq<string>, k: nat, n: nat, marker: string)
    requires k < |files| && n <= |files| && marker != "" && Contains(files[k], marker)
    requires forall j :: 0 <= j < k ==> !Contains(files[j], marker)
    requires forall j :: 0 <= j < |files| ==> !Contains(files[j], "None")
    ensures FlagAfter(files, n, Some(marker), None) <==> k < n
    ensures SelectedFiles(files, n, Some(marker), None) == if n <= k then [] else files[k..n]
  {
    if n > 0 {
      ParserCallSelectsSuffix(files, k, n - 1, marker);
      var pre := SelectedFiles(files, n - 1, Some(marker), None);
      if n <= k {
        assert pre + [] == pre;
      } else if n == k + 1 {
        assert files[k..n] == [] + [files[k]];
      } else {
        assert files[k..n] == files[k..n - 1] + [files[n - 1]];
      }
    }
  }

  /** What the parsers' call gathers: the scan of the marked file and of all
      the files after it. */
  lemma ParserCallGathersSuffix(files: seq<string>, k: nat, marker: string, read: string -> seq<byte>)
    requires k < |files| && marker != "" && Contains(files[k], marker)
    requires forall j :: 0 <= j < k ==> !Contains(files[j], marker)
    requires forall j :: 0 <= j < |files| ==> !Contains(files[j], "None")
    requires Numbered(files, |files|)
    ensures Gathered(files, |files|, Some(marker), None, read) == AsGathering(ScanFiles(files[k..], read))
  {
    ParserCallSelectsSuffix(files, k, |files|, marker);
    GatheredIsScanOfSelected(files, |files|, Some(marker), None, read);
    assert files[k..|files|] == files[k..];
  }

  /** The loop over a single file with neither start nor end: a path
      without a number stops it, a path containing `"None"` is skipped (the
      end marker is `str(None)`), and any other path gives its own scan. */
  lemma OwnFileGathered(file: string, read: string -> seq<byte>)
    ensures var g := Gathered([file], 1, None, None, read);
      && (!HasNumber(file) ==> g == Gathering([], Unnumbered(file)))
      && (HasNumber(file) && Contains(file, "None") ==> g == Gathering([], Exhausted))
      && (HasNumber(file) && !Contains(file, "None") ==> g == AsGathering(Scan(read(file), 0)))
  {
    assert Gathered([file], 0, None, None, read) == Gathering([], Exhausted);
    assert FlagAfter([file], 1, None, None) <==> !Contains(file, "None");
    assert [] + Scan(read(file), 0).blocks == Scan(read(file), 0).blocks;
  }

  /** The call the parsers evidently intend for one block file: a
      `Blockchain` opened on that file's own path, with neither start nor
      end, which yields that file's blocks and no other file's. */
  method GetFileBlocks(file: string, read: string -> seq<byte>) returns (raws: seq<seq<byte>>, stop: Stop)
    ensures !HasNumber(file) ==> raws == [] && stop == Unnumbered(file)
    ensures HasNumber(file) && Contains(file, "None") ==> raws == [] && stop == Exhausted
    ensures HasNumber(file) && !Contains(file, "None") ==> Gathering(raws, stop) == AsGathering(Scan(read(file), 0))
  {
    raws, stop := GetUnorderedBlocks(file, None, read, None, None);
    assert GetFiles(file, None) == [file];
    OwnFileGathered(file, read);
  }

  /** `Blockchain.get_unordered_blocks`: the raw blocks of every file the
      start/end gate lets through, in file order, and how the iteration
      ended. `read` stands for opening and mapping a file. */
  method GetUnorderedBlocks(path: string, listing: Option<seq<string>>, read: string -> seq<byte>,
                            customStart: Option<string>, customEnd: Option<string>)
    returns (raws: seq<seq<byte>>, stop: Stop)
    ensures var files := GetFiles(path, listing);
      Gathering(raws, stop) == Gathered(files, |files|, customStart, customEnd, read)
    ensures var files := GetFiles(path, listing);
      Numbered(files, |files|) ==>
        Gathering(raws, stop) == AsGathering(ScanFiles(SelectedFiles(files, |files|, customStart, customEnd), read))
    ensures stop.Unnumbered? ==> stop.path in GetFiles(path, listing) && FileNumber(stop.path).None?
  {
    var blkFiles := GetFiles(path, listing);
    raws, stop := GatherBlocks(blkFiles, read, customStart, customEnd);
    GatheredUnnumberedPath(blkFiles, |blkFiles|, customStart, customEnd, read);
    assert blkFiles[..|blkFiles|] == blkFiles;
    if stop.Unnumbered? {
      HasNumberIsFileNumber(stop.path);
    }
    if Numbered(blkFiles, |blkFiles|) {
      GatheredIsScanOfSelected(blkFiles, |blkFiles|, customStart, customEnd, read);
    }
  }

  /** The loop of `get_unordered_blocks` over the listed files. */
  method GatherBlocks(blkFiles: seq<string>, read: string -> seq<byte>,
                      customStart: Option<string>, customEnd: Option<string>)
    returns (raws: seq<seq<byte>>, stop: Stop)
    ensures Gathering(raws, stop) == Gathered(blkFiles, |blkFiles|, customStart, customEnd, read)
  {
    var start := true;
    if Truthy(customStart) {
      start := false;
    }
    raws, stop := [], Exhausted;
    var i := 0;
    while i < |blkFiles|
      invariant 0 <= i <= |blkFiles|
      invariant start == FlagAfter(blkFiles, i, customStart, customEnd)
      invariant Gathering(raws, Exhausted) == Gathered(blkFiles, i, customStart, customEnd, read)
    {
      var blkFile := blkFiles[i];
      if !HasNumber(blkFile) {
        stop := Unnumbered(blkFile);
        GatheredAfterStop(blkFiles, i + 1, |blkFiles|, customStart, customEnd, read);
        return;
      }
      if Contains(blkFile, PyStr(customStart)) {
        start := true;
      }
      if Contains(blkFile, PyStr(customEnd)) {
        start := false;
      }
      if start {
        var blocks, _, t := GetBlocks(read(blkFile));
        raws := raws + blocks;
        if t {
          stop := Truncated;
          GatheredAfterStop(blkFiles, i + 1, |blkFiles|, customStart, customEnd, read);
          return;
        }
      }
      i := i + 1;
    }
  }
}
