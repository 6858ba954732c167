/** Backend and device identities, and their persisted form. Text is its UTF-8 bytes. */
module Identity {
  import opened Basics

  type Text = seq<byte>

  predicate Plain(s: string) {
    forall i :: 0 <= i < |s| ==> s[i] as int < 128
  }

  function Ascii(s: string): (t: Text)
    requires Plain(s)
    ensures |t| == |s| && forall i :: 0 <= i < |s| ==> t[i] == s[i] as int
  {
    seq(|s|, i requires 0 <= i < |s| && Plain(s) => s[i] as int)
  }

  const SLASH: byte := 47
  const BAR: byte := 124

  // ----- UTF-8 -----

  predicate Trail(b: byte) {
    128 <= b < 192
  }

  /** The length of the well-formed sequence at the front, or 0: Table 3-7 of the Unicode Standard. */
  function Scalar(t: Text): (n: nat)
    ensures n <= |t|
  {
    if |t| == 0 then 0
    else if t[0] < 128 then 1
    else if |t| >= 2 && 194 <= t[0] < 224 && Trail(t[1]) then 2
    else if |t| >= 3 && 224 <= t[0] < 240 && Trail(t[1]) && Trail(t[2])
            && (t[0] == 224 ==> 160 <= t[1]) && (t[0] == 237 ==> t[1] < 160) then 3
    else if |t| >= 4 && 240 <= t[0] < 245 && Trail(t[1]) && Trail(t[2]) && Trail(t[3])
            && (t[0] == 240 ==> 144 <= t[1]) && (t[0] == 244 ==> t[1] < 144) then 4
    else 0
  }

  predicate Utf8(t: Text)
    decreases |t|
  {
    t == [] || (Scalar(t) > 0 && Utf8(t[Scalar(t)..]))
  }

  /** A Unicode scalar value: a code point that is not a surrogate. */
  predicate IsScalar(code: nat) {
    code < 0x11_0000 && !(0xD800 <= code < 0xE000)
  }

  /** Its UTF-8 bytes. */
  function Encode(code: nat): (t: Text)
    requires IsScalar(code)
    ensures 1 <= |t| <= 4
  {
    if code < 0x80 then [code]
    else if code < 0x800 then [0xC0 + code / 0x40, 0x80 + code % 0x40]
    else if code < 0x1_0000 then [0xE0 + code / 0x1000, 0x80 + code / 0x40 % 0x40, 0x80 + code % 0x40]
    else [0xF0 + code / 0x4_0000, 0x80 + code / 0x1000 % 0x40, 0x80 + code / 0x40 % 0x40, 0x80 + code % 0x40]
  }

  /** The value of a leading part and three base-64 digits. */
  function Value(lead: nat, a: nat, b: nat, c: nat): nat {
    lead * 0x4_0000 + a * 0x1000 + b * 0x40 + c
  }

  /** The value of the sequence at the front. */
  function Decode(t: Text): nat
    requires Scalar(t) > 0
  {
    match Scalar(t)
    case 1 => t[0]
    case 2 => Value(0, 0, t[0] - 0xC0, t[1] - 0x80)
    case 3 => Value(0, t[0] - 0xE0, t[1] - 0x80, t[2] - 0x80)
    case _ => Value(t[0] - 0xF0, t[1] - 0x80, t[2] - 0x80, t[3] - 0x80)
  }

  lemma EncodedIsScalar(code: nat, rest: Text)
    requires IsScalar(code)
    ensures Scalar(Encode(code) + rest) == |Encode(code)|
  {
    var e := Encode(code);
    var t := e + rest;
    assert t[0] == e[0];
    if |e| > 1 { assert t[1] == e[1]; }
    if |e| > 2 { assert t[2] == e[2]; }
    if |e| > 3 { assert t[3] == e[3]; }
  }

  lemma ValueDigits(lead: nat, a: nat, b: nat, c: nat)
    requires a < 0x40 && b < 0x40 && c < 0x40
    ensures var n := Value(lead, a, b, c);
      n / 0x4_0000 == lead && n / 0x1000 % 0x40 == a && n / 0x40 % 0x40 == b && n % 0x40 == c
      && n / 0x1000 == lead * 0x40 + a && n / 0x40 == lead * 0x1000 + a * 0x40 + b
  {
    var n := Value(lead, a, b, c);
    var x := lead * 0x40 + a;
    var y := x * 0x40 + b;
    assert n == y * 0x40 + c;
    assert n / 0x40 == y && n % 0x40 == c;
    assert n / 0x1000 == x;
  }

  lemma ScalarIsEncoded(t: Text)
    requires Scalar(t) > 0
    ensures IsScalar(Decode(t)) && Encode(Decode(t)) == t[..Scalar(t)]
  {
    hide Utf8, Value;
    match Scalar(t)
    case 1 =>
    case 2 =>
      ValueDigits(0, 0, t[0] - 0xC0, t[1] - 0x80);
    case 3 =>
      ValueDigits(0, t[0] - 0xE0, t[1] - 0x80, t[2] - 0x80);
    case _ =>
      ValueDigits(t[0] - 0xF0, t[1] - 0x80, t[2] - 0x80, t[3] - 0x80);
  }

  predicate Scalars(codes: seq<nat>) {
    forall i :: 0 <= i < |codes| ==> IsScalar(codes[i])
  }

  /** The bytes of a sequence of scalar values. */
  function EncodeAll(codes: seq<nat>): Text
    requires Scalars(codes)
  {
    if codes == [] then [] else Encode(codes[0]) + EncodeAll(codes[1..])
  }

  /** A well-formed text holds scalar values. */
  lemma {:induction false} Utf8IsEncoded(t: Text) returns (codes: seq<nat>)
    requires Utf8(t)
    ensures Scalars(codes) && EncodeAll(codes) == t
    decreases |t|
  {
    hide Encode, Decode, Scalar, IsScalar;
    codes := [];
    if t != [] {
      var rest := Utf8IsEncoded(t[Scalar(t)..]);
      ScalarIsEncoded(t);
      codes := [Decode(t)] + rest;
      assert codes[1..] == rest;
      assert t == t[..Scalar(t)] + t[Scalar(t)..];
    }
  }

  lemma {:induction false} EncodedIsUtf8(codes: seq<nat>)
    requires Scalars(codes)
    ensures Utf8(EncodeAll(codes))
  {
    if codes != [] {
      EncodedIsUtf8(codes[1..]);
      var rest := EncodeAll(codes[1..]);
      EncodedIsScalar(codes[0], rest);
      assert (Encode(codes[0]) + rest)[|Encode(codes[0])|..] == rest;
    }
  }

  /** A text is well formed exactly when it is the encoding of some scalar values. */
  lemma Utf8IffEncoded(t: Text)
    ensures Utf8(t) <==> exists codes :: Scalars(codes) && EncodeAll(codes) == t
  {
    if Utf8(t) {
      var codes := Utf8IsEncoded(t);
    } else if exists codes :: Scalars(codes) && EncodeAll(codes) == t {
      var codes :| Scalars(codes) && EncodeAll(codes) == t;
      EncodedIsUtf8(codes);
    }
  }

  // ----- Splitting -----

  /** `split_once`: what is before and after the first separator. */
  function SplitOnce(t: Text, sep: byte): (r: Option<(Text, Text)>)
    ensures r.Some? ==> t == r.value.0 + [sep] + r.value.1 && sep !in r.value.0
    ensures r.None? <==> sep !in t
  {
    if t == [] then None
    else if t[0] == sep then
      assert t == [] + [sep] + t[1..];
      Some(([], t[1..]))
    else
      var rest := SplitOnce(t[1..], sep);
      if rest.None? then None else
        assert t == [t[0]] + t[1..];
        Some(([t[0]] + rest.value.0, rest.value.1))
  }

  /** A text has one such split. */
  lemma SplitIs(a: Text, b: Text, sep: byte)
    requires sep !in a
    ensures SplitOnce(a + [sep] + b, sep) == Some((a, b))
  {
    var t := a + [sep] + b;
    assert t[|a|] == sep;
    var r := SplitOnce(t, sep).value;
    var i, j := |a|, |r.0|;
    assert t[j] == sep;
    assert forall k :: 0 <= k < j ==> t[k] == r.0[k];
    assert forall k :: 0 <= k < i ==> t[k] == a[k];
    assert i == j;
    assert t[..i] == a && t[..j] == r.0;
    assert t[i + 1..] == b && t[j + 1..] == r.1;
  }

  // ----- Backends -----

  datatype BackendId = BackendId(text: Text)

  function Builtins(): seq<Text> {
    [Ascii("uvc"), Ascii("v4l2"), Ascii("avfoundation"), Ascii("camera2"), Ascii("media-foundation"), Ascii("synthetic")]
  }

  predicate IdentifierByte(b: byte) {
    || '0' as int <= b <= '9' as int || 'A' as int <= b <= 'Z' as int || 'a' as int <= b <= 'z' as int
    || b == '-' as int || b == '.' as int || b == '_' as int
  }

  predicate ValidPart(t: Text) {
    0 < |t| <= 96 && forall i :: 0 <= i < |t| ==> IdentifierByte(t[i])
  }

  /** `BackendId::custom`. */
  function Custom(namespace: Text, name: Text): Result<BackendId> {
    if ValidPart(namespace) && ValidPart(name) then Ok(BackendId(namespace + [SLASH] + name)) else Err(InvalidConfig)
  }

  /** `BackendId::from_str`. */
  function ParseBackend(t: Text): Result<BackendId> {
    if t in Builtins() then Ok(BackendId(t))
    else
      var parts := SplitOnce(t, SLASH);
      if parts.None? then Err(InvalidConfig) else Custom(parts.value.0, parts.value.1)
  }

  /** A backend that some constructor can make. */
  ghost predicate IsBackend(b: BackendId) {
    b.text in Builtins() || exists namespace, name :: Custom(namespace, name) == Ok(b)
  }

  lemma BuiltinsArePlain(t: Text)
    requires t in Builtins()
    ensures SLASH !in t && BAR !in t
  {
  }

  lemma PartIsPlain(t: Text)
    requires ValidPart(t)
    ensures SLASH !in t && BAR !in t
  {
  }

  /** Reading a backend's text gives it back, and only texts of backends are read. */
  lemma BackendRoundTrip(b: BackendId)
    ensures ParseBackend(b.text) == Ok(b) <==> IsBackend(b)
    ensures ParseBackend(b.text).Ok? ==> ParseBackend(b.text) == Ok(b)
    ensures IsBackend(b) ==> BAR !in b.text
  {
    var parts := SplitOnce(b.text, SLASH);
    if b.text in Builtins() {
      BuiltinsArePlain(b.text);
    } else if IsBackend(b) {
      var namespace, name :| Custom(namespace, name) == Ok(b);
      PartIsPlain(namespace);
      PartIsPlain(name);
      SplitIs(namespace, name, SLASH);
    }
  }

  // ----- Devices -----

  datatype DeviceId = DeviceId(backend: BackendId, native: Text)

  /** `DeviceId::new`, on a native part that is a Rust string. */
  function NewDevice(backend: BackendId, native: Text): Result<DeviceId> {
    if native == [] || |native| > 4096 || 0 in native then Err(InvalidConfig) else Ok(DeviceId(backend, native))
  }

  /** An identity that the constructors can make. */
  ghost predicate IsDevice(d: DeviceId) {
    IsBackend(d.backend) && Utf8(d.native) && NewDevice(d.backend, d.native) == Ok(d)
  }

  function HexDigit(n: nat): byte
    requires n < 16
  {
    if n < 10 then 48 + n else 97 + n - 10
  }

  /** The value of a hexadecimal digit of either case. */
  function DigitOf(b: byte): Option<nat> {
    if 48 <= b < 58 then Some(b - 48)
    else if 97 <= b < 103 then Some(b - 97 + 10)
    else if 65 <= b < 71 then Some(b - 65 + 10)
    else None
  }

  predicate IsHex(t: Text) {
    forall i :: 0 <= i < |t| ==> DigitOf(t[i]).Some?
  }

  /** Two lower-case digits for each byte. */
  function Hex(t: Text): (h: Text)
    ensures |h| == 2 * |t|
  {
    if t == [] then [] else [HexDigit(t[0] / 16), HexDigit(t[0] % 16)] + Hex(t[1..])
  }

  function Unhex(h: Text): (t: Text)
    requires |h| % 2 == 0 && IsHex(h)
    ensures 2 * |t| == |h|
  {
    if h == [] then []
    else
      assert DigitOf(h[0]).Some? && DigitOf(h[1]).Some?;
      [DigitOf(h[0]).value * 16 + DigitOf(h[1]).value] + Unhex(h[2..])
  }

  function LowerByte(b: byte): byte {
    if 65 <= b < 71 then b + 32 else b
  }

  function Lower(t: Text): (l: Text)
    ensures |l| == |t| && forall i :: 0 <= i < |t| ==> l[i] == LowerByte(t[i])
  {
    seq(|t|, i requires 0 <= i < |t| => LowerByte(t[i]))
  }

  lemma {:induction false} UnhexHex(t: Text)
    ensures IsHex(Hex(t)) && Unhex(Hex(t)) == t
  {
    if t != [] {
      UnhexHex(t[1..]);
      var h := Hex(t);
      assert h[2..] == Hex(t[1..]);
      forall i | 0 <= i < |h| ensures DigitOf(h[i]).Some? {
        if i >= 2 { assert h[i] == h[2..][i - 2]; }
      }
      assert t == [t[0]] + t[1..];
    }
  }

  lemma DigitPrints(b: byte)
    requires DigitOf(b).Some?
    ensures DigitOf(b).value < 16 && HexDigit(DigitOf(b).value) == LowerByte(b)
  {
  }

  lemma HexCons(b: byte, t: Text)
    ensures Hex([b] + t) == [HexDigit(b / 16), HexDigit(b % 16)] + Hex(t)
  {
    assert ([b] + t)[1..] == t;
  }

  lemma LowerCons(h: Text)
    requires |h| >= 2
    ensures Lower(h) == [LowerByte(h[0]), LowerByte(h[1])] + Lower(h[2..])
  {
  }

  lemma UnhexStep(h: Text)
    requires |h| >= 2 && |h| % 2 == 0 && IsHex(h)
    ensures DigitOf(h[0]).Some? && DigitOf(h[1]).Some? && IsHex(h[2..])
    ensures Unhex(h) == [DigitOf(h[0]).value * 16 + DigitOf(h[1]).value] + Unhex(h[2..])
  {
  }

  /** Digits of either case print in lower case. */
  lemma {:induction false} HexUnhex(h: Text)
    requires |h| % 2 == 0 && IsHex(h)
    ensures Hex(Unhex(h)) == Lower(h)
  {
    if h != [] {
      UnhexStep(h);
      HexUnhex(h[2..]);
      DigitPrints(h[0]);
      DigitPrints(h[1]);
      LowerCons(h);
      hide DigitOf, HexDigit, LowerByte, Hex, Unhex, Lower, IsHex;
      var a, b := DigitOf(h[0]).value, DigitOf(h[1]).value;
      HexCons(a * 16 + b, Unhex(h[2..]));
      assert (a * 16 + b) / 16 == a && (a * 16 + b) % 16 == b;
    }
  }

  /** `to_persistent_string`. */
  function Print(d: DeviceId): Text {
    d.backend.text + [BAR] + Hex(d.native)
  }

  /** `parse`. */
  function Parse(t: Text): Result<DeviceId> {
    var parts := SplitOnce(t, BAR);
    if parts.None? then Err(InvalidConfig)
    else
      var (backend, encoded) := parts.value;
      if |encoded| > 4096 * 2 || |encoded| % 2 != 0 || !IsHex(encoded) then Err(InvalidConfig)
      else
        var native := Unhex(encoded);
        if !Utf8(native) then Err(InvalidConfig)
        else
          var id := ParseBackend(backend);
          if id.Err? then Err(id.error) else NewDevice(id.value, native)
  }

  /** Every identity survives being printed and read back. */
  lemma RoundTrip(d: DeviceId)
    requires IsDevice(d)
    ensures Parse(Print(d)) == Ok(d)
  {
    BackendRoundTrip(d.backend);
    SplitIs(d.backend.text, Hex(d.native), BAR);
    UnhexHex(d.native);
  }

  /** Different identities print differently. */
  lemma PrintIsInjective(a: DeviceId, b: DeviceId)
    requires IsDevice(a) && IsDevice(b) && Print(a) == Print(b)
    ensures a == b
  {
    RoundTrip(a);
    RoundTrip(b);
  }

  /** The text up to its first bar, and what follows in lower case. */
  function LowerPayload(t: Text): Text {
    var parts := SplitOnce(t, BAR);
    if parts.None? then t else parts.value.0 + [BAR] + Lower(parts.value.1)
  }

  /** What is read is an identity, and it prints as the text that was read, but for the case of its digits. */
  lemma ReadsBack(t: Text)
    requires Parse(t).Ok?
    ensures IsDevice(Parse(t).value) && Print(Parse(t).value) == LowerPayload(t)
  {
    var (backend, encoded) := SplitOnce(t, BAR).value;
    BackendRoundTrip(BackendId(backend));
    HexUnhex(encoded);
  }

  /** Exactly the printed identities are read, in either case of their digits. */
  lemma AcceptsExactlyPrinted(t: Text)
    ensures Parse(t).Ok? <==> exists d :: IsDevice(d) && Print(d) == LowerPayload(t)
  {
    if Parse(t).Ok? {
      ReadsBack(t);
    } else if exists d :: IsDevice(d) && Print(d) == LowerPayload(t) {
      var d :| IsDevice(d) && Print(d) == LowerPayload(t);
      CaseIsIgnored(t, d);
    }
  }

  /** The digits' case does not change what is read. */
  lemma CaseIsIgnored(t: Text, d: DeviceId)
    requires IsDevice(d) && Print(d) == LowerPayload(t)
    ensures Parse(t) == Ok(d)
  {
    hide DigitOf, HexDigit, LowerByte, Utf8, Builtins, Hex, Unhex, Lower, SplitOnce, ParseBackend, IsHex, IsBackend;
    BackendRoundTrip(d.backend);
    SplitIs(d.backend.text, Hex(d.native), BAR);
    var parts := SplitOnce(t, BAR);
    assert Print(d)[|d.backend.text|] == BAR;
    assert BAR in LowerPayload(t);
    var (backend, encoded) := parts.value;
    SplitIs(backend, Lower(encoded), BAR);
    assert backend == d.backend.text && Lower(encoded) == Hex(d.native);
    UnhexHex(d.native);
    LowerIsHex(encoded);
    UnhexLower(encoded);
  }

  lemma LowerIsHex(t: Text)
    ensures IsHex(Lower(t)) <==> IsHex(t)
  {
    forall i | 0 <= i < |t| ensures DigitOf(Lower(t)[i]) == DigitOf(t[i]) {
    }
  }

  lemma {:induction false} UnhexLower(h: Text)
    requires |h| % 2 == 0 && IsHex(h)
    ensures IsHex(Lower(h)) && Unhex(Lower(h)) == Unhex(h)
  {
    LowerIsHex(h);
    if h != [] {
      assert Lower(h)[2..] == Lower(h[2..]);
      UnhexLower(h[2..]);
    }
  }

  /** A native part is well-formed text of one to 4096 bytes without a zero. */
  lemma IsDeviceIff(d: DeviceId)
    ensures IsDevice(d) <==> IsBackend(d.backend) && Utf8(d.native) && 1 <= |d.native| <= 4096 && forall i :: 0 <= i < |d.native| ==> d.native[i] != 0
  {
  }

  /** "synthetic|e69184" is what the synthetic backend's device U+6444 is persisted as. */
  lemma PrintExample()
    ensures Print(DeviceId(BackendId(Ascii("synthetic")), Encode(0x6444))) == Ascii("synthetic|e69184")
  {
    var t := Encode(0x6444);
    assert t == [0xE6, 0x91, 0x84];
    assert t[1..] == [0x91, 0x84] && t[1..][1..] == [0x84] && t[1..][1..][1..] == [];
    assert Hex([0x84]) == [56, 52] && Hex([0x91, 0x84]) == [57, 49] + Hex([0x84]);
    assert Hex(t) == [101, 54, 57, 49, 56, 52];
    assert Ascii("e69184") == [101, 54, 57, 49, 56, 52];
    assert Ascii("synthetic") + [BAR] + Ascii("e69184") == Ascii("synthetic|e69184");
  }
}
