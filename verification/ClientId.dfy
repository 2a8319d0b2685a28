/** Client identifiers: issuer and subject, escaped so that the two cannot be confused. */
module ClientId {
  import opened Options

  /** A UTF-16 code unit, as Java's char. */
  type Unit = c: int | 0 <= c < 0x10000

  const SLASH: Unit := 0x2f
  const UNDERSCORE: Unit := 0x5f

  predicate IsSafe(c: Unit) {
    || 0x61 <= c <= 0x7a  // a-z
    || 0x41 <= c <= 0x5a  // A-Z
    || 0x30 <= c <= 0x39  // 0-9
    || c == 0x2d          // hyphen
    || c == 0x2e          // period
  }

  function HexDigit(d: int): Unit
    requires 0 <= d < 16
  {
    if d < 10 then 0x30 + d else 0x61 + d - 10
  }

  /** The value of a lower-case hexadecimal digit. */
  function DigitValue(c: Unit): Option<int> {
    if 0x30 <= c <= 0x39 then Some(c - 0x30) else if 0x61 <= c <= 0x66 then Some(c - 0x61 + 10) else None
  }

  /** "_%04x". */
  function Escaped(c: Unit): seq<Unit> {
    [UNDERSCORE, HexDigit(c / 0x1000), HexDigit(c / 0x100 % 16), HexDigit(c / 16 % 16), HexDigit(c % 16)]
  }

  function EscapeUnit(c: Unit): seq<Unit> {
    if IsSafe(c) then [c] else Escaped(c)
  }

  function Escape(s: seq<Unit>): seq<Unit> {
    if s == [] then [] else EscapeUnit(s[0]) + Escape(s[1..])
  }

  function ClientId(issuer: seq<Unit>, subject: seq<Unit>): seq<Unit> {
    Escape(issuer) + [SLASH] + Escape(subject)
  }

  /** The strict inverse of Escape: safe units stand for themselves, an underscore and four
      lower-case digits for a unit that is not safe, and nothing else is accepted. */
  function Unescape(t: seq<Unit>): Option<seq<Unit>> {
    if t == [] then Some([])
    else if IsSafe(t[0]) then
      match Unescape(t[1..])
      case Some(s) => Some([t[0]] + s)
      case None => None
    else if t[0] == UNDERSCORE && |t| >= 5 then
      match (DigitValue(t[1]), DigitValue(t[2]), DigitValue(t[3]), DigitValue(t[4]))
      case (Some(a), Some(b), Some(c), Some(d)) =>
        var v := a * 0x1000 + b * 0x100 + c * 16 + d;
        if v >= 0x10000 || IsSafe(v) then None
        else
          (match Unescape(t[5..])
           case Some(s) => Some([v] + s)
           case None => None)
      case _ => None
    else None
  }

  const HEX := "0123456789abcdef"

  /** The units that stand for themselves: letters, digits, '-' and '.'. */
  predicate Plain(c: Unit) {
    || ('a' as int <= c <= 'z' as int) || ('A' as int <= c <= 'Z' as int) || ('0' as int <= c <= '9' as int)
    || c == '-' as int || c == '.' as int
  }

  /** Escaping goes unit by unit: a plain unit is kept, any other becomes an underscore and its value in
      four lower-case hexadecimal digits. */
  lemma EscapeReads(s: seq<Unit>, c: Unit, t: seq<Unit>)
    ensures Escape(s + [c] + t) == Escape(s) + Escape([c]) + Escape(t) && Escape([]) == []
    ensures Plain(c) ==> Escape([c]) == [c]
    ensures !Plain(c) ==>
      exists i, j, k, l :: 0 <= i < 16 && 0 <= j < 16 && 0 <= k < 16 && 0 <= l < 16
        && c == i * 0x1000 + j * 0x100 + k * 16 + l
        && Escape([c]) == ['_' as int, HEX[i] as int, HEX[j] as int, HEX[k] as int, HEX[l] as int]
  {
    UnitReads(c);
    EscapeOne(c);
    hide EscapeUnit, Escape, Plain;
    EscapeAppends(s + [c], t);
    EscapeAppends(s, [c]);
  }

  lemma EscapeOne(c: Unit)
    ensures Escape([c]) == EscapeUnit(c) && Escape([]) == []
  {
    hide EscapeUnit;
    assert [c][1..] == [];
  }

  lemma {:induction false} EscapeAppends(s: seq<Unit>, t: seq<Unit>)
    ensures Escape(s + t) == Escape(s) + Escape(t)
  {
    hide EscapeUnit;
    if s == [] {
      assert s + t == t;
    } else {
      EscapeAppends(s[1..], t);
      assert (s + t)[1..] == s[1..] + t;
    }
  }

  lemma UnitReads(c: Unit)
    ensures Plain(c) ==> EscapeUnit(c) == [c]
    ensures !Plain(c) ==>
      exists i, j, k, l :: 0 <= i < 16 && 0 <= j < 16 && 0 <= k < 16 && 0 <= l < 16
        && c == i * 0x1000 + j * 0x100 + k * 16 + l
        && EscapeUnit(c) == ['_' as int, HEX[i] as int, HEX[j] as int, HEX[k] as int, HEX[l] as int]
  {
    var i, j, k, l := c / 0x1000, c / 0x100 % 16, c / 16 % 16, c % 16;
    Split16(c);
    DigitReads(i);
    DigitReads(j);
    DigitReads(k);
    DigitReads(l);
    assert !Plain(c) ==> EscapeUnit(c) == ['_' as int, HEX[i] as int, HEX[j] as int, HEX[k] as int, HEX[l] as int];
  }

  lemma DigitReads(d: int)
    requires 0 <= d < 16
    ensures HexDigit(d) == HEX[d] as int
  {
  }

  /** Split at the first slash and undo both halves. */
  function DecodeId(t: seq<Unit>): Option<(seq<Unit>, seq<Unit>)> {
    var i := FirstSlash(t);
    if i >= |t| then None
    else
      match (Unescape(t[..i]), Unescape(t[i + 1..]))
      case (Some(issuer), Some(subject)) => Some((issuer, subject))
      case _ => None
  }

  function FirstSlash(t: seq<Unit>): (i: nat)
    ensures i <= |t| && SLASH !in t[..i] && (i < |t| ==> t[i] == SLASH)
  {
    if t == [] || t[0] == SLASH then 0 else 1 + FirstSlash(t[1..])
  }

  /** Base sixteen: four digits and the number they make determine each other. */
  lemma Digits16(a: int, b: int, c: int, d: int, v: int)
    requires 0 <= a < 16 && 0 <= b < 16 && 0 <= c < 16 && 0 <= d < 16
    requires v == a * 0x1000 + b * 0x100 + c * 16 + d
    ensures 0 <= v < 0x10000
    ensures v / 0x1000 == a && v / 0x100 % 16 == b && v / 16 % 16 == c && v % 16 == d
  {
    assert v / 0x100 == 16 * a + b;
    assert v / 16 == 256 * a + 16 * b + c;
    assert (16 * a + b) % 16 == b;
    assert (256 * a + 16 * b + c) % 16 == c;
  }

  lemma Split16(v: int)
    requires 0 <= v < 0x10000
    ensures 0 <= v / 0x1000 < 16
    ensures v / 0x1000 * 0x1000 + v / 0x100 % 16 * 0x100 + v / 16 % 16 * 16 + v % 16 == v
  {
    assert v / 16 / 16 == v / 0x100;
    assert v / 0x100 / 16 == v / 0x1000;
  }

  lemma HexDigits(c: Unit)
    ensures var e := Escaped(c);
            && DigitValue(e[1]) == Some(c / 0x1000) && DigitValue(e[2]) == Some(c / 0x100 % 16)
            && DigitValue(e[3]) == Some(c / 16 % 16) && DigitValue(e[4]) == Some(c % 16)
            && SLASH !in e
    ensures c / 0x1000 * 0x1000 + c / 0x100 % 16 * 0x100 + c / 16 % 16 * 16 + c % 16 == c
  {
    Split16(c);
    DigitRoundTrip(c / 0x1000);
    DigitRoundTrip(c / 0x100 % 16);
    DigitRoundTrip(c / 16 % 16);
    DigitRoundTrip(c % 16);
  }

  lemma DigitRoundTrip(d: int)
    requires 0 <= d < 16
    ensures DigitValue(HexDigit(d)) == Some(d) && HexDigit(d) != SLASH
  {
  }

  /** Whatever was escaped comes back. */
  lemma {:induction false} UnescapeEscape(s: seq<Unit>)
    ensures Unescape(Escape(s)) == Some(s) && SLASH !in Escape(s)
  {
    if s != [] {
      var t := Escape(s);
      UnescapeEscape(s[1..]);
      assert [s[0]] + s[1..] == s;
      if IsSafe(s[0]) {
        assert t[1..] == Escape(s[1..]);
      } else {
        HexDigits(s[0]);
        assert t[5..] == Escape(s[1..]) && t[..5] == Escaped(s[0]);
        assert forall i :: 0 <= i < 5 ==> t[i] == Escaped(s[0])[i];
      }
    }
  }

  lemma DigitsBack(a: Unit, b: Unit, c: Unit, d: Unit)
    requires DigitValue(a).Some? && DigitValue(b).Some? && DigitValue(c).Some? && DigitValue(d).Some?
    ensures var v := DigitValue(a).value * 0x1000 + DigitValue(b).value * 0x100 + DigitValue(c).value * 16 + DigitValue(d).value;
            0 <= v < 0x10000 && Escaped(v) == [UNDERSCORE, a, b, c, d]
  {
    var v := DigitValue(a).value * 0x1000 + DigitValue(b).value * 0x100 + DigitValue(c).value * 16 + DigitValue(d).value;
    Digits16(DigitValue(a).value, DigitValue(b).value, DigitValue(c).value, DigitValue(d).value, v);
    DigitBack(a);
    DigitBack(b);
    DigitBack(c);
    DigitBack(d);
  }

  lemma DigitBack(c: Unit)
    requires DigitValue(c).Some?
    ensures 0 <= DigitValue(c).value < 16 && HexDigit(DigitValue(c).value) == c
  {
  }

  /** And nothing else unescapes: the decoder accepts exactly what escaping produces. */
  lemma {:induction false} EscapeUnescape(t: seq<Unit>)
    requires Unescape(t).Some?
    ensures Escape(Unescape(t).value) == t
  {
    if t != [] {
      var s := Unescape(t).value;
      if IsSafe(t[0]) {
        EscapeUnescape(t[1..]);
        assert s[1..] == Unescape(t[1..]).value;
        assert t == [t[0]] + t[1..];
      } else {
        DigitsBack(t[1], t[2], t[3], t[4]);
        EscapeUnescape(t[5..]);
        assert s[1..] == Unescape(t[5..]).value;
        assert t == [t[0], t[1], t[2], t[3], t[4]] + t[5..];
      }
    }
  }

  /** An identifier holds exactly one slash, decodes to its issuer and subject, and is the only
      string that does; so different callers have different identifiers. */
  lemma ClientIdIsInjective(issuer: seq<Unit>, subject: seq<Unit>, t: seq<Unit>)
    ensures DecodeId(t) == Some((issuer, subject)) <==> t == ClientId(issuer, subject)
    ensures multiset(ClientId(issuer, subject))[SLASH] == 1
  {
    hide DecodeId, Escape;
    IdDecodes(issuer, subject);
    if DecodeId(t) == Some((issuer, subject)) { OnlyIdsDecode(issuer, subject, t); }
  }

  lemma OnlyIdsDecode(issuer: seq<Unit>, subject: seq<Unit>, t: seq<Unit>)
    requires DecodeId(t) == Some((issuer, subject))
    ensures t == ClientId(issuer, subject)
  {
    hide Unescape, Escape;
    var j := FirstSlash(t);
    EscapeUnescape(t[..j]);
    EscapeUnescape(t[j + 1..]);
    assert t == t[..j] + [t[j]] + t[j + 1..];
  }

  lemma IdDecodes(issuer: seq<Unit>, subject: seq<Unit>)
    ensures DecodeId(ClientId(issuer, subject)) == Some((issuer, subject))
    ensures multiset(ClientId(issuer, subject))[SLASH] == 1
  {
    hide Unescape, Escape;
    UnescapeEscape(issuer);
    UnescapeEscape(subject);
    var id := ClientId(issuer, subject);
    SlashBetween(Escape(issuer), Escape(subject));
    var k := |Escape(issuer)|;
    assert id[..k] == Escape(issuer) && id[k + 1..] == Escape(subject);
  }

  lemma {:induction false} SlashBetween(left: seq<Unit>, right: seq<Unit>)
    requires SLASH !in left && SLASH !in right
    ensures FirstSlash(left + [SLASH] + right) == |left|
    ensures multiset(left + [SLASH] + right)[SLASH] == 1
  {
    var t := left + [SLASH] + right;
    assert SLASH !in multiset(left) && SLASH !in multiset(right);
    if left != [] {
      assert t[1..] == left[1..] + [SLASH] + right;
      SlashBetween(left[1..], right);
    }
  }

  lemma EscapeNext(s: seq<Unit>, i: nat, sb: seq<Unit>)
    requires i < |s|
    ensures var next := if IsSafe(s[i]) then [s[i]] else Escaped(s[i]);
            sb + Escape(s[i..]) == (sb + next) + Escape(s[i + 1..])
  {
    assert s[i..][0] == s[i] && s[i..][1..] == s[i + 1..];
    hide IsSafe, Escaped;
  }

  /** The loop of escape(). */
  method EscapeLoop(s: seq<Unit>) returns (sb: seq<Unit>)
    ensures sb == Escape(s)
  {
    hide IsSafe, Escaped, Escape;
    sb := [];
    var i := 0;
    assert s[0..] == s && sb + Escape(s) == Escape(s);
    while i < |s|
      invariant i <= |s| && sb + Escape(s[i..]) == Escape(s)
    {
      EscapeNext(s, i, sb);
      if IsSafe(s[i]) {
        sb := sb + [s[i]];
      } else {
        sb := sb + Escaped(s[i]);
      }
      i := i + 1;
    }
    assert s[|s|..] == [];
    EscapeNothing();
  }

  lemma EscapeNothing()
    ensures Escape([]) == []
  {
  }

  /** getClientId. */
  method GetClientId(issuer: seq<Unit>, subject: seq<Unit>) returns (id: seq<Unit>)
    ensures DecodeId(id) == Some((issuer, subject))
  {
    var left := EscapeLoop(issuer);
    var right := EscapeLoop(subject);
    id := left + [SLASH] + right;
    ClientIdIsInjective(issuer, subject, id);
  }
}
