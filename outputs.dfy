/** A transaction output as the block parser decodes it: the byte layout
    (8-byte value, CompactSize script length, script), the first-match
    classification of the script into one of ten type names, and the
    address list derived from it, each memoised on first access.

    The script parser, its pattern predicates and the address encoders are
    not part of this model: a `Script` value carries the operations and the
    answers of the predicates, and an `Address` records which encoder was
    applied to which operation. */
module Outputs {
  import opened Common

  // ---------------------------------------------------------------------
  // CompactSize integers and the 8-byte value

  datatype Varint = Varint(value: nat, size: nat)

  /** Bitcoin's CompactSize decoding: one byte below 253 is the value;
      253, 254 and 255 announce 2, 4 or 8 little-endian bytes. `None` where
      fewer bytes remain than the encoding needs. */
  function DecodeVarint(b: seq<byte>): (r: Option<Varint>)
    ensures r.Some? ==> r.value.size <= |b|
    ensures r.Some? ==> r.value.size == 1 || r.value.size == 3 || r.value.size == 5 || r.value.size == 9
    ensures r.None? <==> |b| == 0 || (b[0] == 253 && |b| < 3) || (b[0] == 254 && |b| < 5) || (b[0] == 255 && |b| < 9)
  {
    if |b| == 0 then None
    else if b[0] < 253 then Some(Varint(b[0] as nat, 1))
    else
      var w := if b[0] == 253 then 2 else if b[0] == 254 then 4 else 8;
      if |b| < 1 + w then None else Some(Varint(LittleEndian(b[1..1 + w]), 1 + w))
  }

  /** The shortest CompactSize encoding of `n`. */
  function EncodeVarint(n: nat): (r: seq<byte>)
    requires n < Pow256(8)
    ensures |r| == 1 || |r| == 3 || |r| == 5 || |r| == 9
  {
    if n < 253 then [n as byte]
    else if n < 0x1_0000 then [253] + EncodeLittleEndian(n, 2)
    else if n < 0x1_0000_0000 then [254] + EncodeLittleEndian(n, 4)
    else [255] + EncodeLittleEndian(n, 8)
  }

  lemma Pow256Values()
    ensures Pow256(2) == 0x1_0000 && Pow256(4) == 0x1_0000_0000 && Pow256(8) == 0x1_0000_0000_0000_0000
  {
    assert Pow256(1) == 256;
    assert Pow256(3) == 0x100_0000;
    assert Pow256(5) == 0x100_0000_0000;
    assert Pow256(6) == 0x1_0000_0000_0000;
    assert Pow256(7) == 0x100_0000_0000_0000;
  }

  /** Decoding an encoding gives the value back and consumes exactly the encoding. */
  lemma VarintRoundTrip(n: nat, rest: seq<byte>)
    requires n < Pow256(8)
    ensures DecodeVarint(EncodeVarint(n) + rest) == Some(Varint(n, |EncodeVarint(n)|))
  {
    Pow256Values();
    var e := EncodeVarint(n);
    var b := e + rest;
    if n >= 253 {
      var w := |e| - 1;
      assert b[1..1 + w] == e[1..];
      LittleEndianRoundTrip(n, w);
    }
  }

  /** `decode_uint64`: `struct.unpack("<Q", ...)`, which needs exactly 8 bytes. */
  function DecodeUint64(b: seq<byte>): (r: Option<nat>)
    ensures r.Some? <==> |b| == 8
    ensures r.Some? ==> r.value < Pow256(8)
  {
    if |b| == 8 then Some(LittleEndian(b)) else None
  }

  // ---------------------------------------------------------------------
  // Layout

  /** The slices `Output.__init__` cuts out of the bytes that start at the output. */
  datatype Layout = Layout(valueHex: seq<byte>, scriptHex: seq<byte>, size: nat)

  /** `None` where `decode_varint` fails on the bytes after the value. */
  function OutputLayout(raw: seq<byte>): (r: Option<Layout>)
    ensures r.Some? <==> DecodeVarint(raw[Min(8, |raw|)..]).Some?
    ensures r.Some? ==>
      var v := DecodeVarint(raw[Min(8, |raw|)..]).value;
      r.value.size == 8 + v.size + v.value && |r.value.valueHex| == Min(8, |raw|)
      && |r.value.scriptHex| <= v.value
  {
    match DecodeVarint(raw[Min(8, |raw|)..])
    case None => None
    case Some(v) =>
      var scriptStart := 8 + v.size;
      var scriptEnd := scriptStart + v.value;
      Some(Layout(raw[..Min(8, |raw|)], raw[Min(scriptStart, |raw|)..Min(scriptEnd, |raw|)], scriptEnd))
  }

  /** The serialised form of an output: 8-byte value, CompactSize length, script. */
  function EncodeOutput(value: nat, script: seq<byte>): seq<byte>
    requires value < Pow256(8) && |script| < Pow256(8)
  {
    EncodeLittleEndian(value, 8) + EncodeVarint(|script|) + script
  }

  /** Round trip: the layout of a serialised output, followed by anything,
      recovers its value and its script, and its size is the number of
      bytes the output occupies. */
  lemma LayoutRoundTrip(value: nat, script: seq<byte>, rest: seq<byte>)
    requires value < Pow256(8) && |script| < Pow256(8)
    ensures
      var raw := EncodeOutput(value, script) + rest;
      var l := OutputLayout(raw);
      l.Some? && l.value.scriptHex == script && DecodeUint64(l.value.valueHex) == Some(value)
      && l.value.size == |EncodeOutput(value, script)|
  {
    var vb := EncodeLittleEndian(value, 8);
    var vi := EncodeVarint(|script|);
    var raw := EncodeOutput(value, script) + rest;
    assert raw == vb + (vi + (script + rest));
    assert raw[8..] == vi + (script + rest);
    VarintRoundTrip(|script|, script + rest);
    assert raw[..8] == vb;
    LittleEndianRoundTrip(value, 8);
    assert raw[8 + |vi|..8 + |vi| + |script|] == script;
  }

  // ---------------------------------------------------------------------
  // Scripts and their classification

  /** One operation of a parsed script: pushed data, or an opcode / small integer. */
  datatype Operation = Push(data: seq<byte>) | Code(value: int)

  /** A parsed output script: its operations together with the answers of
      the pattern predicates the script parser provides. */
  datatype Script = Script(operations: seq<Operation>, valid: bool, pubkeyhash: bool, pubkey: bool,
                           p2sh: bool, multisig: bool, isReturn: bool, p2wpkh: bool, p2wsh: bool, p2tr: bool)

  /** The ten type names, in the order the classification tries them. */
  const TypeNames: seq<string> :=
    ["invalid", "p2pkh", "p2pk", "p2sh", "p2ms", "OP_RETURN", "p2wpkh", "p2wsh", "p2tr", "unknown"]

  /** The `i`-th of the nine checks of the classification, in the order they are tried. */
  function Check(s: Script, i: nat): bool
    requires i < 9
  {
    if i == 0 then !s.valid
    else if i == 1 then s.pubkeyhash
    else if i == 2 then s.pubkey
    else if i == 3 then s.p2sh
    else if i == 4 then s.multisig
    else if i == 5 then s.isReturn
    else if i == 6 then s.p2wpkh
    else if i == 7 then s.p2wsh
    else s.p2tr
  }

  /** The position in `TypeNames` of the type `Output.type` chooses: the
      first check that succeeds names the type. */
  function TypeIndex(s: Script): (k: nat)
    ensures k < 10
  {
    if !s.valid then 0
    else if s.pubkeyhash then 1
    else if s.pubkey then 2
    else if s.p2sh then 3
    else if s.multisig then 4
    else if s.isReturn then 5
    else if s.p2wpkh then 6
    else if s.p2wsh then 7
    else if s.p2tr then 8
    else 9
  }

  /** `Output.type`, by name. */
  function TypeOf(s: Script): (t: string)
    ensures t in TypeNames
  {
    TypeNames[TypeIndex(s)]
  }

  /** The chosen check succeeds and every earlier one fails. */
  lemma TypeIndexFirst(s: Script)
    ensures TypeIndex(s) < 9 ==> Check(s, TypeIndex(s))
    ensures forall j :: 0 <= j < TypeIndex(s) ==> !Check(s, j)
  {
  }

  lemma TypeNamesDistinct()
    ensures forall i, j :: 0 <= i < j < 10 ==> TypeNames[i] != TypeNames[j]
  {
  }

  /** First match, both ways: the type is the `i`-th name exactly when the
      `i`-th check succeeds and every earlier one fails; it is "unknown"
      exactly when all nine fail. */
  lemma TypeOfFirstMatch(s: Script)
    ensures forall i :: 0 <= i < 9 ==>
      (TypeOf(s) == TypeNames[i] <==> Check(s, i) && forall j :: 0 <= j < i ==> !Check(s, j))
    ensures TypeOf(s) == "unknown" <==> forall j :: 0 <= j < 9 ==> !Check(s, j)
  {
    var k := TypeIndex(s);
    TypeIndexFirst(s);
    TypeNamesDistinct();
    forall i | 0 <= i < 9
      ensures TypeOf(s) == TypeNames[i] <==> Check(s, i) && forall j :: 0 <= j < i ==> !Check(s, j)
    {
      if Check(s, i) && forall j :: 0 <= j < i ==> !Check(s, j) {
        assert k == i;
      }
    }
    assert TypeNames[9] == "unknown";
  }

  /** Python's normalisation of a slice end `e` on a list of length `len`. */
  function SliceEnd(e: int, len: nat): (r: nat)
    ensures r <= len
  {
    if e < 0 then (if len + e < 0 then 0 else len + e) else Min(e, len)
  }

  /** What the address dispatch indexes exists: the operations the chosen
      pattern guarantees (the script predicates check these shapes). */
  predicate WellShaped(s: Script)
  {
    var k := |s.operations|;
    var t := TypeOf(s);
    (t == "p2pk" ==> k >= 1)
    && (t == "p2pkh" ==> k >= 3)
    && (t == "p2sh" || t == "p2wpkh" || t == "p2wsh" || t == "p2tr" ==> k >= 2)
    && (t == "p2ms" ==> k >= 2 && s.operations[k - 2].Code?)
  }

  /** The address an encoder derives, recorded by encoder and input. */
  datatype Address =
    | FromPublicKey(key: Operation)
    | FromRipemd160(hash: Operation, kind: string)
    | FromBech32(program: Operation, version: nat)
    | FromBech32m(program: Operation, version: nat)
    | OPReturnAddress(tag: string)
    | UnknownAddress(tag: string)

  /** The public keys `operations[1:1+n]` of a multisig script. */
  function MultisigKeys(s: Script): seq<Operation>
    requires |s.operations| >= 2 && s.operations[|s.operations| - 2].Code?
  {
    var ops := s.operations;
    var e := SliceEnd(1 + ops[|ops| - 2].value, |ops|);
    if 1 <= e then ops[1..e] else []
  }

  /** `Output.addresses`, computed from the script. */
  function AddressesOf(s: Script): seq<Address>
    requires WellShaped(s)
  {
    var t := TypeOf(s);
    var ops := s.operations;
    if t == "p2pk" then [FromPublicKey(ops[0])]
    else if t == "p2pkh" then [FromRipemd160(ops[2], "p2pkh")]
    else if t == "p2sh" then [FromRipemd160(ops[1], "p2sh")]
    else if t == "p2ms" then
      var keys := MultisigKeys(s);
      if |keys| > 0 then [FromPublicKey(keys[0])] else []
    else if t == "p2wpkh" then [FromBech32(ops[1], 0)]
    else if t == "p2wsh" then [FromBech32(ops[1], 0)]
    else if t == "p2tr" then [FromBech32m(ops[1], 1)]
    else if t == "OP_RETURN" then [OPReturnAddress(t)]
    else if t == "invalid" || t == "unknown" then [UnknownAddress(t)]
    else [UnknownAddress("undefined")]
  }

  /** Every type but multisig gives exactly one address, so address and
      value lists stay aligned; multisig gives at most one, the first key. */
  lemma AddressesCardinality(s: Script)
    requires WellShaped(s)
    ensures TypeOf(s) != "p2ms" ==> |AddressesOf(s)| == 1
    ensures TypeOf(s) == "p2ms" ==> |AddressesOf(s)| <= 1
    ensures TypeOf(s) == "p2ms" && |AddressesOf(s)| == 1 ==> AddressesOf(s)[0] == FromPublicKey(s.operations[1])
    ensures TypeOf(s) == "p2ms" ==> (|AddressesOf(s)| == 1 <==> |MultisigKeys(s)| > 0)
  {
  }

  /** Placeholders: OP_RETURN gives an `OPReturnAddress`, invalid and unknown
      scripts an `UnknownAddress` tagged with the type, and the "undefined"
      fallback is never reached. */
  lemma AddressesPlaceholders(s: Script)
    requires WellShaped(s)
    ensures TypeOf(s) == "OP_RETURN" ==> AddressesOf(s) == [OPReturnAddress("OP_RETURN")]
    ensures TypeOf(s) == "invalid" || TypeOf(s) == "unknown" ==> AddressesOf(s) == [UnknownAddress(TypeOf(s))]
    ensures UnknownAddress("undefined") !in AddressesOf(s)
  {
  }

  // ---------------------------------------------------------------------
  // The memoising output object

  /** `Output`: the layout is fixed at construction; value, script and
      addresses are computed on first access and cached. `parse` stands
      for `Script.from_hex`. */
  class Output {
    const parse: seq<byte> -> Script
    const valueHex: seq<byte>
    const scriptHex: seq<byte>
    const size: nat
    var cachedValue: Option<nat>
    var cachedScript: Option<Script>
    var cachedAddresses: Option<seq<Address>>

    /** Every cache, once filled, holds what its property computes. */
    ghost predicate Valid()
      reads this
    {
      (cachedValue.Some? ==> DecodeUint64(valueHex) == cachedValue)
      && (cachedScript.Some? ==> cachedScript.value == parse(scriptHex))
      && (cachedAddresses.Some? ==> WellShaped(parse(scriptHex)) && cachedAddresses.value == AddressesOf(parse(scriptHex)))
    }

    constructor (raw: seq<byte>, parse: seq<byte> -> Script)
      requires OutputLayout(raw).Some?
      ensures Valid()
      ensures this.parse == parse
      ensures valueHex == OutputLayout(raw).value.valueHex
      ensures scriptHex == OutputLayout(raw).value.scriptHex
      ensures size == OutputLayout(raw).value.size
      ensures cachedValue.None? && cachedScript.None? && cachedAddresses.None?
    {
      var v := DecodeVarint(raw[Min(8, |raw|)..]).value;
      var scriptStart := 8 + v.size;
      this.parse := parse;
      scriptHex := raw[Min(scriptStart, |raw|)..Min(scriptStart + v.value, |raw|)];
      size := scriptStart + v.value;
      valueHex := raw[..Min(8, |raw|)];
      cachedValue, cachedScript, cachedAddresses := None, None, None;
    }

    /** `value`: `None` where `decode_uint64` fails (fewer than 8 value bytes). */
    method Value() returns (v: Option<nat>)
      requires Valid()
      modifies this`cachedValue
      ensures Valid()
      ensures v == DecodeUint64(valueHex)
      ensures old(cachedValue).Some? ==> cachedValue == old(cachedValue)
      ensures cachedValue == if v.Some? then v else old(cachedValue)
    {
      if cachedValue.None? {
        var d := DecodeUint64(valueHex);
        if d.Some? {
          cachedValue := d;
        }
        return d;
      }
      v := cachedValue;
    }

    method GetScript() returns (s: Script)
      requires Valid()
      modifies this`cachedScript
      ensures Valid()
      ensures s == parse(scriptHex)
      ensures cachedScript == Some(s)
    {
      if cachedScript.None? {
        cachedScript := Some(parse(scriptHex));
      }
      s := cachedScript.value;
    }

    /** `type`, through the memoised script. */
    method Type() returns (t: string)
      requires Valid()
      modifies this`cachedScript
      ensures Valid()
      ensures t == TypeOf(parse(scriptHex))
      ensures cachedScript == Some(parse(scriptHex))
    {
      var s := GetScript();
      if !s.valid { return "invalid"; }
      if s.pubkeyhash { return "p2pkh"; }
      if s.pubkey { return "p2pk"; }
      if s.p2sh { return "p2sh"; }
      if s.multisig { return "p2ms"; }
      if s.isReturn { return "OP_RETURN"; }
      if s.p2wpkh { return "p2wpkh"; }
      if s.p2wsh { return "p2wsh"; }
      if s.p2tr { return "p2tr"; }
      return "unknown";
    }

    /** `addresses`: built once by appending to a fresh list, then returned
        unchanged on every later access. */
    method Addresses() returns (r: seq<Address>)
      requires Valid() && WellShaped(parse(scriptHex))
      modifies this`cachedScript, this`cachedAddresses
      ensures Valid()
      ensures r == AddressesOf(parse(scriptHex))
      ensures cachedAddresses == Some(r)
      ensures old(cachedAddresses).Some? ==> r == old(cachedAddresses).value
    {
      if cachedAddresses.None? {
        var list: seq<Address> := [];
        var t := Type();
        var s := GetScript();
        var ops := s.operations;
        if t == "p2pk" {
          list := list + [FromPublicKey(ops[0])];
        } else if t == "p2pkh" {
          list := list + [FromRipemd160(ops[2], "p2pkh")];
        } else if t == "p2sh" {
          list := list + [FromRipemd160(ops[1], "p2sh")];
        } else if t == "p2ms" {
          var keys := MultisigKeys(s);
          // the loop over the keys breaks after its first iteration:
          // only the first key of a multisig script is taken
          if |keys| > 0 {
            list := list + [FromPublicKey(keys[0])];
          }
        } else if t == "p2wpkh" {
          list := list + [FromBech32(ops[1], 0)];
        } else if t == "p2wsh" {
          list := list + [FromBech32(ops[1], 0)];
        } else if t == "p2tr" {
          list := list + [FromBech32m(ops[1], 1)];
        } else if t == "OP_RETURN" {
          list := list + [OPReturnAddress(t)];
        } else if t == "invalid" || t == "unknown" {
          list := list + [UnknownAddress(t)];
        } else {
          list := list + [UnknownAddress("undefined")];
        }
        cachedAddresses := Some(list);
      }
      r := cachedAddresses.value;
    }
  }
}
