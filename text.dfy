/** The pieces of Python's string handling that `SpeakerAccess.from_config` relies on:
    `str.split(sep)`, `int(text)` in base 10 and `bytearray.fromhex(text)`, together with
    their inverses `sep.join(parts)`, `str(n)` and `bytes.hex()`. */
module Text {
  import opened Wrappers

  newtype byte = x: int | 0 <= x < 256

  // ---------------------------------------------------------------------------
  // str.split(sep) and sep.join(parts)

  /** `sep.join(parts)`. */
  function Join(parts: seq<string>, sep: char): string
    requires |parts| >= 1
    decreases |parts|
  {
    if |parts| == 1 then parts[0] else parts[0] + [sep] + Join(parts[1..], sep)
  }

  lemma JoinTwo(a: string, b: string, sep: char)
    ensures Join([a, b], sep) == a + [sep] + b
  {
    assert [a, b][1..] == [b];
  }

  /** Prepending a character that is not the separator to the first part. */
  lemma ConsPart(c: char, parts: seq<string>, sep: char)
    requires |parts| >= 1 && c != sep
    requires forall i :: 0 <= i < |parts| ==> sep !in parts[i]
    ensures var joined := [[c] + parts[0]] + parts[1..];
      && |joined| == |parts|
      && (forall i :: 0 <= i < |joined| ==> sep !in joined[i])
      && Join(joined, sep) == [c] + Join(parts, sep)
  {
    var joined := [[c] + parts[0]] + parts[1..];
    assert joined[1..] == parts[1..];
    assert forall i :: 1 <= i < |joined| ==> joined[i] == parts[i];
  }

  lemma CountCons(s: string, c: char)
    requires |s| > 0
    ensures multiset(s)[c] == multiset(s[1..])[c] + (if s[0] == c then 1 else 0)
  {
    assert s == [s[0]] + s[1..];
  }

  /** `s.split(sep)` for a one-character separator: no part holds the separator, and
      joining the parts gives `s` back. */
  function Split(s: string, sep: char): (parts: seq<string>)
    ensures |parts| >= 1
    ensures forall i :: 0 <= i < |parts| ==> sep !in parts[i]
    ensures Join(parts, sep) == s
    decreases |s|
  {
    if |s| == 0 then [""]
    else
      var rest := Split(s[1..], sep);
      if s[0] == sep then
        assert ([""] + rest)[1..] == rest;
        assert [sep] + s[1..] == s;
        [""] + rest
      else
        ConsPart(s[0], rest, sep);
        assert [s[0]] + s[1..] == s;
        [[s[0]] + rest[0]] + rest[1..]
  }

  /** There is one more part than there are separators. */
  lemma {:induction false} SplitCount(s: string, sep: char)
    ensures |Split(s, sep)| == multiset(s)[sep] + 1
    decreases |s|
  {
    if |s| > 0 {
      SplitCount(s[1..], sep);
      CountCons(s, sep);
    }
  }

  /** A string that splits into two parts is the first part, the separator and the second. */
  lemma SplitTwo(a: string, sep: char)
    requires |Split(a, sep)| == 2
    ensures var parts := Split(a, sep); var k := |parts[0]|;
      k < |a| && a[..k] == parts[0] && a[k] == sep && a[k + 1..] == parts[1]
  {
    var parts := Split(a, sep);
    assert parts == [parts[0], parts[1]];
    JoinTwo(parts[0], parts[1], sep);
  }

  /** `host:port` with neither part holding ':' splits into exactly those parts. */
  lemma SplitPair(a: string, b: string, sep: char)
    requires sep !in a && sep !in b
    ensures Split(a + [sep] + b, sep) == [a, b]
  {
    JoinTwo(a, b, sep);
    SplitJoin([a, b], sep);
  }

  lemma {:induction false} SplitFree(x: string, sep: char)
    requires sep !in x
    ensures Split(x, sep) == [x]
    decreases |x|
  {
    if |x| > 0 {
      SplitFree(x[1..], sep);
      assert [x[0]] + x[1..] == x;
    }
  }

  lemma {:induction false} SplitPrefix(x: string, sep: char, y: string)
    requires sep !in x
    ensures Split(x + [sep] + y, sep) == [x] + Split(y, sep)
    decreases |x|
  {
    var s := x + [sep] + y;
    if |x| == 0 {
      assert s[1..] == y;
    } else {
      assert s[1..] == x[1..] + [sep] + y;
      SplitPrefix(x[1..], sep, y);
      assert [x[0]] + x[1..] == x;
    }
  }

  /** Splitting undoes joining when no part holds the separator. */
  lemma {:induction false} SplitJoin(parts: seq<string>, sep: char)
    requires |parts| >= 1
    requires forall i :: 0 <= i < |parts| ==> sep !in parts[i]
    ensures Split(Join(parts, sep), sep) == parts
    decreases |parts|
  {
    if |parts| == 1 {
      SplitFree(parts[0], sep);
    } else {
      SplitJoin(parts[1..], sep);
      SplitPrefix(parts[0], sep, Join(parts[1..], sep));
      assert [parts[0]] + parts[1..] == parts;
    }
  }

  // ---------------------------------------------------------------------------
  // int(text) and str(n)

  /** The white space `int()` skips around a number: the ASCII characters space, tab,
      line feed, vertical tab, form feed and carriage return, and, of the Latin-1
      range, U+0085 and U+00A0 (non-ASCII white space is read as a space). */
  predicate IsSpace(c: char) {
    c == ' ' || c == '\t' || c == '\n' || c == '\r' || c == '\U{0B}' || c == '\U{0C}'
    || c == '\U{85}' || c == '\U{A0}'
  }

  predicate IsDigit(c: char) {
    '0' <= c <= '9'
  }

  function TrimLeft(s: string): (t: string)
    ensures |t| <= |s| && t == s[|s| - |t|..]
    ensures |t| > 0 ==> !IsSpace(t[0])
    decreases |s|
  {
    if |s| > 0 && IsSpace(s[0]) then TrimLeft(s[1..]) else s
  }

  function TrimRight(s: string): (t: string)
    ensures |t| <= |s| && t == s[..|t|]
    ensures |t| > 0 ==> !IsSpace(t[|t| - 1])
    decreases |s|
  {
    if |s| > 0 && IsSpace(s[|s| - 1]) then TrimRight(s[..|s| - 1]) else s
  }

  /** The text with `int()`'s white space removed from both ends. */
  function Strip(s: string): string {
    TrimRight(TrimLeft(s))
  }

  /** A run of decimal digits in which single underscores may separate digits, as
      `int()` accepts it after the sign. */
  predicate DigitGroups(d: string) {
    && |d| > 0 && IsDigit(d[0]) && IsDigit(d[|d| - 1])
    && (forall i :: 0 <= i < |d| ==> IsDigit(d[i]) || d[i] == '_')
    && (forall i :: 0 <= i < |d| - 1 ==> d[i] == '_' ==> d[i + 1] != '_')
  }

  /** The digits of `d` with the underscores dropped. */
  function Digits(d: string): (r: string)
    ensures forall i :: 0 <= i < |r| ==> r[i] != '_'
    ensures |r| <= |d|
  {
    if |d| == 0 then [] else if d[0] == '_' then Digits(d[1..]) else [d[0]] + Digits(d[1..])
  }

  predicate AllDigits(d: string) {
    forall i :: 0 <= i < |d| ==> IsDigit(d[i])
  }

  /** The number a string of decimal digits denotes. */
  function DecimalValue(d: string): nat
    requires AllDigits(d)
    decreases |d|
  {
    if |d| == 0 then 0 else DecimalValue(d[..|d| - 1]) * 10 + ((d[|d| - 1] as int) - ('0' as int))
  }

  lemma {:induction false} DigitsOfGroups(d: string)
    requires forall i :: 0 <= i < |d| ==> IsDigit(d[i]) || d[i] == '_'
    ensures AllDigits(Digits(d))
    decreases |d|
  {
    if |d| > 0 {
      DigitsOfGroups(d[1..]);
    }
  }

  /** The base-10 value of a digit run after the sign, or None when `int()` rejects it. */
  function ParseDigits(d: string): (r: Option<nat>)
    ensures r.Some? <==> DigitGroups(d)
  {
    if DigitGroups(d) then DigitsOfGroups(d); Some(DecimalValue(Digits(d))) else None
  }

  /** `int(s)`: surrounding white space, an optional sign and a digit run; None where
      Python raises ValueError. */
  function ParseInt(s: string): (r: Option<int>)
    ensures var t := Strip(s);
      var body := if |t| > 0 && (t[0] == '+' || t[0] == '-') then t[1..] else t;
      && (r.Some? <==> DigitGroups(body))
      && (r.Some? ==> ParseDigits(body) == Some(if r.value < 0 then -r.value else r.value))
      && (r.Some? && r.value < 0 ==> t[0] == '-')
      && (r.Some? && |t| > 0 && t[0] == '-' ==> r.value <= 0)
  {
    ParseSigned(Strip(s))
  }

  /** `int()` on text without surrounding white space: an optional sign, then digits. */
  function ParseSigned(t: string): Option<int> {
    if |t| > 0 && (t[0] == '+' || t[0] == '-') then
      match ParseDigits(t[1..])
      case None => None
      case Some(n) => Some(if t[0] == '-' then -(n as int) else n as int)
    else
      match ParseDigits(t)
      case None => None
      case Some(n) => Some(n)
  }

  function DigitChar(k: nat): (c: char)
    requires k < 10
    ensures IsDigit(c) && (c as int) - ('0' as int) == k
  {
    ('0' as int + k) as char
  }

  /** `str(n)` for a natural number. */
  function ShowNat(n: nat): (s: string)
    ensures |s| > 0 && AllDigits(s)
    decreases n
  {
    if n < 10 then [DigitChar(n)] else ShowNat(n / 10) + [DigitChar(n % 10)]
  }

  /** `str(n)`. */
  function ShowInt(n: int): string {
    if n < 0 then "-" + ShowNat(-n) else ShowNat(n)
  }

  lemma {:induction false} DecimalValueOfShow(n: nat)
    ensures DecimalValue(ShowNat(n)) == n
    decreases n
  {
    if n >= 10 {
      var s := ShowNat(n);
      DecimalValueOfShow(n / 10);
      assert s[..|s| - 1] == ShowNat(n / 10);
    }
  }

  lemma {:induction false} DigitsOfDigits(d: string)
    requires AllDigits(d)
    ensures Digits(d) == d
    decreases |d|
  {
    if |d| > 0 {
      DigitsOfDigits(d[1..]);
      assert [d[0]] + d[1..] == d;
    }
  }

  lemma ParseShowNat(n: nat)
    ensures ParseDigits(ShowNat(n)) == Some(n)
  {
    DigitsOfDigits(ShowNat(n));
    DecimalValueOfShow(n);
  }

  /** `int(str(n)) == n`, also with white space around the digits. */
  lemma ParseShowInt(n: int, pad: string)
    requires forall i :: 0 <= i < |pad| ==> IsSpace(pad[i])
    ensures ParseInt(pad + ShowInt(n) + pad) == Some(n)
  {
    StripPadded(pad, ShowInt(n));
    ParseSignedShow(n);
  }

  lemma ParseSignedShow(n: int)
    ensures ParseSigned(ShowInt(n)) == Some(n)
  {
    var s := ShowInt(n);
    if n < 0 {
      assert s[1..] == ShowNat(-n);
      ParseShowNat(-n);
    } else {
      assert !(s[0] == '+' || s[0] == '-');
      ParseShowNat(n);
    }
  }

  lemma StripPadded(pad: string, s: string)
    requires forall i :: 0 <= i < |pad| ==> IsSpace(pad[i])
    requires |s| > 0 && !IsSpace(s[0]) && !IsSpace(s[|s| - 1])
    ensures Strip(pad + s + pad) == s
  {
    TrimLeftPadded(pad, s + pad);
    assert pad + s + pad == pad + (s + pad);
    TrimRightPadded(s, pad);
  }

  lemma {:induction false} TrimLeftPadded(pad: string, s: string)
    requires forall i :: 0 <= i < |pad| ==> IsSpace(pad[i])
    requires |s| > 0 && !IsSpace(s[0])
    ensures TrimLeft(pad + s) == s
    decreases |pad|
  {
    if |pad| > 0 {
      assert (pad + s)[1..] == pad[1..] + s;
      TrimLeftPadded(pad[1..], s);
    }
  }

  lemma {:induction false} TrimRightPadded(s: string, pad: string)
    requires forall i :: 0 <= i < |pad| ==> IsSpace(pad[i])
    requires |s| > 0 && !IsSpace(s[|s| - 1])
    ensures TrimRight(s + pad) == s
    decreases |pad|
  {
    if |pad| > 0 {
      assert (s + pad)[..|s + pad| - 1] == s + pad[..|pad| - 1];
      TrimRightPadded(s, pad[..|pad| - 1]);
    } else {
      assert s + pad == s;
    }
  }

  // ---------------------------------------------------------------------------
  // bytearray.fromhex(text) and bytes.hex()

  /** The white space `bytearray.fromhex` skips between byte pairs (ASCII only). */
  predicate IsHexSpace(c: char) {
    c == ' ' || c == '\t' || c == '\n' || c == '\r' || c == '\U{0B}' || c == '\U{0C}'
  }

  function HexValue(c: char): (r: Option<nat>)
    ensures r.Some? ==> r.value < 16
  {
    if '0' <= c <= '9' then Some(c as int - '0' as int)
    else if 'a' <= c <= 'f' then Some(c as int - 'a' as int + 10)
    else if 'A' <= c <= 'F' then Some(c as int - 'A' as int + 10)
    else None
  }

  /** `bytearray.fromhex(s)`: pairs of hex digits, either case, with white space allowed
      before each pair; None where Python raises ValueError (an odd digit, a stray
      character, white space inside a pair). At most one byte per two characters. */
  function FromHex(s: string): (r: Option<seq<byte>>)
    ensures r.Some? ==> 2 * |r.value| <= |s|
    decreases |s|
  {
    if |s| == 0 then Some([])
    else if IsHexSpace(s[0]) then FromHex(s[1..])
    else if |s| < 2 then None
    else
      match (HexValue(s[0]), HexValue(s[1]), FromHex(s[2..]))
      case (Some(hi), Some(lo), Some(rest)) => Some([(hi * 16 + lo) as byte] + rest)
      case _ => None
  }

  /** One pair of hex digits at the front of `fromhex`'s input. */
  lemma FromHexStep(s: string)
    requires |s| >= 2 && !IsHexSpace(s[0])
    ensures FromHex(s).Some? <==>
      HexValue(s[0]).Some? && HexValue(s[1]).Some? && FromHex(s[2..]).Some?
    ensures FromHex(s).Some? ==>
      FromHex(s).value
      == [(HexValue(s[0]).value * 16 + HexValue(s[1]).value) as byte] + FromHex(s[2..]).value
  {
  }

  /** On text without white space, `fromhex` succeeds exactly when the text is an even
      number of hex digits, of either case. */
  lemma {:induction false} FromHexAccepts(s: string)
    requires forall i :: 0 <= i < |s| ==> !IsHexSpace(s[i])
    ensures FromHex(s).Some? <==> |s| % 2 == 0 && forall i :: 0 <= i < |s| ==> HexValue(s[i]).Some?
    decreases |s|
  {
    if |s| >= 2 {
      var tail := s[2..];
      assert forall i :: 0 <= i < |tail| ==> tail[i] == s[i + 2];
      FromHexStep(s);
      FromHexAccepts(tail);
    }
  }

  /** On text without white space, byte `j` of what `fromhex` yields is the value of
      the hex digits `2j` and `2j+1`, and there is one byte per pair. */
  lemma {:induction false} FromHexPairs(s: string)
    requires forall i :: 0 <= i < |s| ==> !IsHexSpace(s[i])
    ensures FromHex(s).Some? ==> var v := FromHex(s).value;
      && |v| == |s| / 2
      && forall j :: 0 <= j < |v| ==>
        HexValue(s[2 * j]).Some? && HexValue(s[2 * j + 1]).Some? &&
        v[j] as int == HexValue(s[2 * j]).value * 16 + HexValue(s[2 * j + 1]).value
    decreases |s|
  {
    if |s| >= 2 && FromHex(s).Some? {
      var tail := s[2..];
      FromHexStep(s);
      FromHexPairs(tail);
      var v, w := FromHex(s).value, FromHex(tail).value;
      forall j | 0 <= j < |v|
        ensures HexValue(s[2 * j]).Some? && HexValue(s[2 * j + 1]).Some? &&
          v[j] as int == HexValue(s[2 * j]).value * 16 + HexValue(s[2 * j + 1]).value
      {
        if j > 0 {
          assert v[j] == w[j - 1];
          assert s[2 * j] == tail[2 * (j - 1)] && s[2 * j + 1] == tail[2 * (j - 1) + 1];
        }
      }
    }
  }

  function HexDigit(k: nat): (c: char)
    requires k < 16
    ensures HexValue(c) == Some(k)
  {
    if k < 10 then ('0' as int + k) as char else ('a' as int + k - 10) as char
  }

  /** `bytes(b).hex()`: two lower-case hex digits per byte. */
  function Hex(b: seq<byte>): (s: string)
    ensures |s| == 2 * |b|
  {
    if |b| == 0 then [] else [HexDigit(b[0] as int / 16), HexDigit(b[0] as int % 16)] + Hex(b[1..])
  }

  /** `bytearray.fromhex(b.hex()) == b`. */
  lemma {:induction false} FromHexOfHex(b: seq<byte>)
    ensures FromHex(Hex(b)) == Some(b)
    decreases |b|
  {
    if |b| > 0 {
      var s := Hex(b);
      FromHexStep(s);
      FromHexOfHex(b[1..]);
      assert s[2..] == Hex(b[1..]);
      assert [b[0]] + b[1..] == b;
    }
  }
}
