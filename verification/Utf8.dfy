/** Validation of UTF-8 text, against the encoding of sections 3 and 4 of RFC 3629. */
module Utf8 {

  type Byte = bv8
  type Code = bv32

  /** A Unicode scalar value: at most 10FFFF and not a surrogate. */
  predicate IsScalar(u: Code) {
    u <= 0x10FFFF && !(0xD800 <= u <= 0xDFFF)
  }

  function Tail(u: Code): Byte {
    0x80 | ((u & 0x3F) as Byte)
  }

  function Encode(u: Code): (s: seq<Byte>)
    requires IsScalar(u)
    ensures 1 <= |s| <= 4
  {
    if u < 0x80 then [u as Byte]
    else if u < 0x800 then [0xC0 | ((u >> 6) as Byte), Tail(u)]
    else if u < 0x1_0000 then [0xE0 | ((u >> 12) as Byte), Tail(u >> 6), Tail(u)]
    else [0xF0 | ((u >> 18) as Byte), Tail(u >> 12), Tail(u >> 6), Tail(u)]
  }

  function EncodeAll(us: seq<Code>): seq<Byte>
    requires forall u :: u in us ==> IsScalar(u)
  {
    if us == [] then [] else Encode(us[0]) + EncodeAll(us[1..])
  }

  /** The text is the encoding of some sequence of scalar values. */
  ghost predicate IsUtf8(text: seq<Byte>) {
    exists us: seq<Code> :: (forall u :: u in us ==> IsScalar(u)) && EncodeAll(us) == text
  }

  // ----- single characters, bit by bit

  predicate IsTail(b: Byte) {
    b & 0xC0 == 0x80
  }

  function Pushed(code: Code, b: Byte): Code {
    (code << 6) | ((b & 0x3F) as Code)
  }

  lemma Ascii(b: Byte)
    requires b <= 0x7F
    ensures IsScalar(b as Code) && Encode(b as Code) == [b]
  {
  }

  lemma TwoDecode(a: Byte, b: Byte)
    requires a & 0xE0 == 0xC0 && IsTail(b)
    ensures var u := Pushed((a & 0x1F) as Code, b); u < 0x800 && (u >= 0x80 ==> 0xC0 | ((u >> 6) as Byte) == a && Tail(u) == b)
  {
  }

  lemma ThreeDecode(a: Byte, b: Byte, c: Byte)
    requires a & 0xF0 == 0xE0 && IsTail(b) && IsTail(c)
    ensures var u := Pushed(Pushed((a & 0x0F) as Code, b), c);
      u < 0x1_0000 && 0xE0 | ((u >> 12) as Byte) == a && Tail(u >> 6) == b && Tail(u) == c
  {
  }

  lemma FourDecode(a: Byte, b: Byte, c: Byte, d: Byte)
    requires a & 0xF8 == 0xF0 && IsTail(b) && IsTail(c) && IsTail(d)
    ensures var u := Pushed(Pushed(Pushed((a & 0x07) as Code, b), c), d);
      u <= 0x1F_FFFF && 0xF0 | ((u >> 18) as Byte) == a && Tail(u >> 12) == b && Tail(u >> 6) == c && Tail(u) == d
  {
  }

  lemma TwoEncode(u: Code)
    requires 0x80 <= u < 0x800
    ensures var a, b := 0xC0 | ((u >> 6) as Byte), Tail(u);
      a > 0x7F && a & 0xE0 == 0xC0 && a & 0x1F != 0 && IsTail(b) && Pushed((a & 0x1F) as Code, b) == u
  {
  }

  lemma ThreeEncode(u: Code)
    requires 0x800 <= u < 0x1_0000
    ensures var a, b, c := 0xE0 | ((u >> 12) as Byte), Tail(u >> 6), Tail(u);
      a > 0x7F && a & 0xE0 != 0xC0 && a & 0xF0 == 0xE0 && IsTail(b) && IsTail(c) && Pushed(Pushed((a & 0x0F) as Code, b), c) == u
  {
  }

  lemma FourEncode(u: Code)
    requires 0x1_0000 <= u <= 0x10_FFFF
    ensures var a, b, c, d := 0xF0 | ((u >> 18) as Byte), Tail(u >> 12), Tail(u >> 6), Tail(u);
      a > 0x7F && a & 0xE0 != 0xC0 && a & 0xF0 != 0xE0 && a & 0xF8 == 0xF0 && IsTail(b) && IsTail(c) && IsTail(d) &&
      Pushed(Pushed(Pushed((a & 0x07) as Code, b), c), d) == u
  {
  }

  // ----- the first character of a text

  /** Number of continuation bytes a lead byte announces; None for a byte that cannot lead. */
  function Announced(lead: Byte): (n: nat)
    ensures n <= 4
  {
    if lead <= 0x7F then 0
    else if lead & 0xE0 == 0xC0 then (if lead & 0x1F == 0 then 4 else 1)
    else if lead & 0xF0 == 0xE0 then 2
    else if lead & 0xF8 == 0xF0 then 3
    else 4
  }

  /** The payload bits of a lead byte. */
  function LeadBits(lead: Byte): Code {
    if lead <= 0x7F then lead as Code
    else if lead & 0xE0 == 0xC0 then (lead & 0x1F) as Code
    else if lead & 0xF0 == 0xE0 then (lead & 0x0F) as Code
    else (lead & 0x07) as Code
  }

  function Joined(code: Code, tails: seq<Byte>): Code {
    if tails == [] then code else Pushed(Joined(code, tails[..|tails| - 1]), tails[|tails| - 1])
  }

  /** Shortest form, no surrogate, nothing above the last code point. */
  predicate Admissible(tails: nat, code: Code) {
    && !(tails == 1 && code < 0x80) && !(tails == 2 && code < 0x800) && !(tails == 3 && code < 0x1_0000)
    && !(0xD800 <= code <= 0xDFFF) && code <= 0x10_FFFF
  }

  predicate HeadOk(text: seq<Byte>)
    requires text != []
  {
    var n := Announced(text[0]);
    && n < 4 && n < |text|
    && (forall k :: 1 <= k <= n ==> IsTail(text[k]))
    && Admissible(n, Joined(LeadBits(text[0]), text[1..n + 1]))
  }

  function HeadCode(text: seq<Byte>): Code
    requires text != [] && HeadOk(text)
  {
    Joined(LeadBits(text[0]), text[1..Announced(text[0]) + 1])
  }

  lemma JoinedSmall(code: Code, tails: seq<Byte>)
    ensures |tails| == 1 ==> Joined(code, tails) == Pushed(code, tails[0])
    ensures |tails| == 2 ==> Joined(code, tails) == Pushed(Pushed(code, tails[0]), tails[1])
    ensures |tails| == 3 ==> Joined(code, tails) == Pushed(Pushed(Pushed(code, tails[0]), tails[1]), tails[2])
  {
    hide Pushed;
    if |tails| == 2 {
      assert tails[..1] == [tails[0]];
    } else if |tails| == 3 {
      assert tails[..2] == [tails[0], tails[1]] && tails[..2][..1] == [tails[0]];
    }
  }

  lemma HeadBytes(text: seq<Byte>)
    requires text != [] && HeadOk(text)
    ensures var n := Announced(text[0]); var tails := text[1..n + 1];
      && |tails| == n && text[..n + 1] == [text[0]] + tails && (forall k :: 0 <= k < n ==> IsTail(tails[k]))
      && HeadCode(text) == Joined(LeadBits(text[0]), tails) && Admissible(n, HeadCode(text))
  {
    hide IsTail, LeadBits, Joined, Admissible;
    var n := Announced(text[0]);
    var tails := text[1..n + 1];
    forall k | 0 <= k < n ensures IsTail(tails[k]) {
      assert IsTail(text[k + 1]);
    }
  }

  /** Admissible codes are scalar values of the length class their lead announces. */
  lemma AdmissibleScalar(n: nat, u: Code)
    requires Admissible(n, u)
    ensures IsScalar(u) && (n == 1 ==> u >= 0x80) && (n == 2 ==> u >= 0x800) && (n == 3 ==> u >= 0x1_0000)
  {
  }

  lemma OneIsEncoded(a: Byte)
    requires Announced(a) == 0
    ensures var u := LeadBits(a); IsScalar(u) && Encode(u) == [a]
  {
    Ascii(a);
  }

  lemma TwoIsEncoded(a: Byte, b: Byte)
    requires Announced(a) == 1 && IsTail(b) && Admissible(1, Pushed(LeadBits(a), b))
    ensures var u := Pushed(LeadBits(a), b); IsScalar(u) && Encode(u) == [a, b]
  {
    TwoDecode(a, b);
    AdmissibleScalar(1, Pushed(LeadBits(a), b));
    hide Pushed, Tail, IsTail, Admissible;
  }

  lemma ThreeIsEncoded(a: Byte, b: Byte, c: Byte)
    requires Announced(a) == 2 && IsTail(b) && IsTail(c) && Admissible(2, Pushed(Pushed(LeadBits(a), b), c))
    ensures var u := Pushed(Pushed(LeadBits(a), b), c); IsScalar(u) && Encode(u) == [a, b, c]
  {
    ThreeDecode(a, b, c);
    AdmissibleScalar(2, Pushed(Pushed(LeadBits(a), b), c));
    hide Pushed, Tail, IsTail, Admissible;
  }

  lemma FourIsEncoded(a: Byte, b: Byte, c: Byte, d: Byte)
    requires Announced(a) == 3 && IsTail(b) && IsTail(c) && IsTail(d)
    requires Admissible(3, Pushed(Pushed(Pushed(LeadBits(a), b), c), d))
    ensures var u := Pushed(Pushed(Pushed(LeadBits(a), b), c), d); IsScalar(u) && Encode(u) == [a, b, c, d]
  {
    FourDecode(a, b, c, d);
    AdmissibleScalar(3, Pushed(Pushed(Pushed(LeadBits(a), b), c), d));
    hide Pushed, Tail, IsTail, Admissible;
  }

  /** A head that passes the checks is the encoding of the scalar value it decodes to. */
  lemma HeadSound(text: seq<Byte>)
    requires text != [] && HeadOk(text)
    ensures var u := HeadCode(text); IsScalar(u) && Encode(u) == text[..Announced(text[0]) + 1]
  {
    HeadBytes(text);
    hide HeadOk, HeadCode, Joined, Pushed, LeadBits, Encode, IsTail, Announced, IsScalar, Admissible;
    var n, lead := Announced(text[0]), LeadBits(text[0]);
    var tails := text[1..n + 1];
    AnnouncedOk(text);
    JoinedSmall(lead, tails);
    if n == 0 {
      JoinedNone(lead);
      OneIsEncoded(text[0]);
    } else if n == 1 {
      assert tails == [tails[0]];
      TwoIsEncoded(text[0], tails[0]);
    } else if n == 2 {
      assert tails == [tails[0], tails[1]];
      ThreeIsEncoded(text[0], tails[0], tails[1]);
    } else {
      assert tails == [tails[0], tails[1], tails[2]];
      FourIsEncoded(text[0], tails[0], tails[1], tails[2]);
    }
  }

  lemma AnnouncedOk(text: seq<Byte>)
    requires text != [] && HeadOk(text)
    ensures Announced(text[0]) < 4
  {
  }

  lemma JoinedNone(code: Code)
    ensures Joined(code, []) == code
  {
  }

  lemma HeadOfOne(text: seq<Byte>, a: Byte)
    requires [a] <= text && Announced(a) == 0 && Admissible(0, LeadBits(a))
    ensures HeadOk(text) && HeadCode(text) == LeadBits(a)
  {
    JoinedNone(LeadBits(a));
    hide Joined, LeadBits, Admissible, IsTail;
    assert text[0] == a && text[1..1] == [];
  }

  /** Bytes of the right kinds with an admissible code are an accepted head, whatever follows. */
  lemma HeadOfTails(text: seq<Byte>, a: Byte, tails: seq<Byte>)
    requires [a] + tails <= text && 1 <= |tails| == Announced(a) < 4 && (forall k :: 0 <= k < |tails| ==> IsTail(tails[k]))
    requires Admissible(|tails|, Joined(LeadBits(a), tails))
    ensures text != [] && text[0] == a && HeadOk(text) && HeadCode(text) == Joined(LeadBits(a), tails)
  {
    hide Joined, LeadBits, Admissible, IsTail, Announced;
    var n := |tails|;
    assert text[..n + 1] == [a] + tails;
    assert text[0] == text[..n + 1][0] == a;
    assert text[1..n + 1] == text[..n + 1][1..] == tails;
    forall k | 1 <= k <= n ensures IsTail(text[k]) {
      assert text[k] == text[1..n + 1][k - 1];
    }
  }

  lemma ScalarAdmissible(n: nat, u: Code)
    requires IsScalar(u) && (n == 1 ==> u >= 0x80) && (n == 2 ==> u >= 0x800) && (n == 3 ==> u >= 0x1_0000)
    ensures Admissible(n, u)
  {
  }

  lemma LeadOfTwo(a: Byte)
    requires a > 0x7F && a & 0xE0 == 0xC0 && a & 0x1F != 0
    ensures Announced(a) == 1 && LeadBits(a) == (a & 0x1F) as Code
  {
  }

  lemma LeadOfThree(a: Byte)
    requires a > 0x7F && a & 0xE0 != 0xC0 && a & 0xF0 == 0xE0
    ensures Announced(a) == 2 && LeadBits(a) == (a & 0x0F) as Code
  {
  }

  lemma LeadOfFour(a: Byte)
    requires a > 0x7F && a & 0xE0 != 0xC0 && a & 0xF0 != 0xE0 && a & 0xF8 == 0xF0
    ensures Announced(a) == 3 && LeadBits(a) == (a & 0x07) as Code
  {
  }

  /** Every text that starts with an encoding passes the checks and decodes to that scalar value. */
  lemma HeadComplete(text: seq<Byte>, u: Code)
    requires IsScalar(u) && Encode(u) <= text
    ensures text != [] && HeadOk(text) && HeadCode(text) == u && |Encode(u)| == Announced(text[0]) + 1
  {
    hide HeadOk, HeadCode, Joined, Pushed, LeadBits, IsTail, Announced, IsScalar, Admissible, Tail;
    if u < 0x80 {
      ScalarAdmissible(0, u);
      OneLead(u);
      HeadOfOne(text, u as Byte);
    } else if u < 0x800 {
      var a, b := 0xC0 | ((u >> 6) as Byte), Tail(u);
      TwoEncode(u);
      LeadOfTwo(a);
      ScalarAdmissible(1, u);
      JoinedSmall(LeadBits(a), [b]);
      assert [a] + [b] == Encode(u);
      HeadOfTails(text, a, [b]);
    } else if u < 0x1_0000 {
      var a, b, c := 0xE0 | ((u >> 12) as Byte), Tail(u >> 6), Tail(u);
      ThreeEncode(u);
      LeadOfThree(a);
      ScalarAdmissible(2, u);
      JoinedSmall(LeadBits(a), [b, c]);
      assert [a] + [b, c] == Encode(u);
      HeadOfTails(text, a, [b, c]);
    } else {
      ScalarRange(u);
      var a, b, c, d := 0xF0 | ((u >> 18) as Byte), Tail(u >> 12), Tail(u >> 6), Tail(u);
      FourEncode(u);
      LeadOfFour(a);
      ScalarAdmissible(3, u);
      JoinedSmall(LeadBits(a), [b, c, d]);
      assert [a] + [b, c, d] == Encode(u);
      HeadOfTails(text, a, [b, c, d]);
    }
  }

  lemma ScalarRange(u: Code)
    requires IsScalar(u)
    ensures u <= 0x10_FFFF && (u >> 18) < 0x100
  {
  }

  lemma OneLead(u: Code)
    requires u < 0x80
    ensures Announced(u as Byte) == 0 && LeadBits(u as Byte) == u
  {
  }

  // ----- whole texts

  /** Behind an accepted head, the text is valid exactly when the rest is. */
  lemma HeadThenRest(text: seq<Byte>)
    requires text != [] && HeadOk(text)
    ensures IsUtf8(text) <==> IsUtf8(text[Announced(text[0]) + 1..])
  {
    hide HeadOk, Encode, HeadCode;
    var n, u := Announced(text[0]) + 1, HeadCode(text);
    HeadSound(text);
    HeadLength(text);
    assert text == text[..n] + text[n..];
    if IsUtf8(text[n..]) {
      var us: seq<Code> :| (forall u :: u in us ==> IsScalar(u)) && EncodeAll(us) == text[n..];
      var all := [u] + us;
      assert all[1..] == us;
      assert EncodeAll(all) == text;
    }
    if IsUtf8(text) {
      var us: seq<Code> :| (forall u :: u in us ==> IsScalar(u)) && EncodeAll(us) == text;
      assert Encode(us[0]) <= text;
      HeadComplete(text, us[0]);
      assert EncodeAll(us[1..]) == text[n..];
    }
  }

  lemma HeadLength(text: seq<Byte>)
    requires text != [] && HeadOk(text)
    ensures Announced(text[0]) + 1 <= |text|
  {
  }

  /** A text whose head is refused is not valid. */
  lemma HeadRefused(text: seq<Byte>)
    requires text != [] && !HeadOk(text)
    ensures !IsUtf8(text)
  {
    hide HeadOk, Encode;
    forall us: seq<Code> | forall u :: u in us ==> IsScalar(u) ensures EncodeAll(us) != text {
      if us != [] && Encode(us[0]) <= text {
        HeadComplete(text, us[0]);
      }
    }
  }

  lemma EmptyIsUtf8()
    ensures IsUtf8([])
  {
    assert EncodeAll([]) == [];
  }

  /** Reads the text character by character and stops at the first one that is malformed. */
  method IsValidUtf8(text: seq<Byte>) returns (ok: bool)
    ensures ok <==> IsUtf8(text)
  {
    hide HeadOk, IsUtf8, Joined, Admissible;
    var index := 0;
    assert text[0..] == text;
    while index < |text|
      invariant index <= |text| && (IsUtf8(text) <==> IsUtf8(text[index..]))
    {
      ghost var rest := text[index..];
      var byte := text[index];
      if byte <= 0x7F {
        AsciiHead(rest);
        HeadThenRest(rest);
        index := index + 1;
        assert rest[1..] == text[index..];
        continue;
      }
      var needed: nat, codepoint: Code := 0, 0;
      if byte & 0xE0 == 0xC0 {
        needed, codepoint := 1, (byte & 0x1F) as Code;
        if codepoint == 0 {
          HeadCases(rest);
          HeadRefused(rest);
          return false;
        }
      } else if byte & 0xF0 == 0xE0 {
        needed, codepoint := 2, (byte & 0x0F) as Code;
      } else if byte & 0xF8 == 0xF0 {
        needed, codepoint := 3, (byte & 0x07) as Code;
      } else {
        HeadCases(rest);
        HeadRefused(rest);
        return false;
      }
      HeadCases(rest);
      if index + needed >= |text| {
        HeadRefused(rest);
        return false;
      }
      JoinedNone(codepoint);
      assert rest[1..1] == [];
      for offset := 1 to needed + 1
        invariant codepoint == Joined(LeadBits(byte), rest[1..offset])
        invariant forall k :: 1 <= k < offset ==> IsTail(rest[k])
      {
        var continuation := text[index + offset];
        if continuation & 0xC0 != 0x80 {
          HeadRefused(rest);
          return false;
        }
        JoinedMore(LeadBits(byte), rest, offset);
        codepoint := Pushed(codepoint, continuation);
      }
      if !Admissible(needed, codepoint) {
        HeadRefused(rest);
        return false;
      }
      HeadThenRest(rest);
      assert rest[needed + 1..] == text[index + needed + 1..];
      index := index + needed + 1;
    }
    assert text[index..] == [];
    EmptyIsUtf8();
    return true;
  }

  lemma HeadCases(text: seq<Byte>)
    requires text != []
    ensures var n := Announced(text[0]);
      if n >= 4 || n >= |text| || exists k :: 1 <= k <= n && !IsTail(text[k]) then !HeadOk(text)
      else HeadOk(text) <==> Admissible(n, Joined(LeadBits(text[0]), text[1..n + 1]))
  {
  }

  lemma AsciiHead(text: seq<Byte>)
    requires text != [] && text[0] <= 0x7F
    ensures HeadOk(text)
  {
    JoinedNone(LeadBits(text[0]));
    assert text[1..1] == [];
  }

  lemma JoinedMore(code: Code, text: seq<Byte>, k: nat)
    requires 1 <= k < |text|
    ensures Joined(code, text[1..k + 1]) == Pushed(Joined(code, text[1..k]), text[k])
  {
    assert text[1..k + 1][..k - 1] == text[1..k];
  }
}
