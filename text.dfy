/** The string built-ins the modelled code relies on: `parseInt(s, 10)`, the decimal rendering of
    an integer, `toUpperCase`, `Array.prototype.join`, `String.prototype.split` on one character,
    `String.prototype.replace` with a one-character search string, and `endsWith`. */
module JsText {
  import opened Json

  predicate IsDigit(c: char) { '0' <= c <= '9' }

  predicate AllDigits(d: string) { forall i | 0 <= i < |d| :: IsDigit(d[i]) }

  function DigitValue(c: char): nat
    requires IsDigit(c)
  {
    (c as int) - ('0' as int)
  }

  function DigitChar(d: nat): (c: char)
    requires d < 10
    ensures IsDigit(c) && DigitValue(c) == d
  {
    ('0' as int + d) as char
  }

  /** The number a run of decimal digits denotes, most significant digit first. */
  function DigitsValue(d: string): nat
    requires AllDigits(d)
  {
    if d == [] then 0 else DigitsValue(d[..|d| - 1]) * 10 + DigitValue(d[|d| - 1])
  }

  /** The decimal digits of a natural number, without leading zeros. */
  function NatDecimal(n: nat): (r: string)
    ensures |r| > 0 && AllDigits(r)
    ensures DigitsValue(r) == n
    ensures r[0] == '0' ==> n == 0
  {
    if n < 10 then [DigitChar(n)]
    else
      var prefix := NatDecimal(n / 10);
      var r := prefix + [DigitChar(n % 10)];
      assert r[..|r| - 1] == prefix;
      r
  }

  /** How `String(n)` renders an integer (exact for the integers JavaScript numbers hold exactly). */
  function Decimal(n: int): string
  {
    if n < 0 then "-" + NatDecimal(-n) else NatDecimal(n)
  }

  /** The white space `parseInt` skips before the number: ASCII white space, no-break space,
      byte-order mark and the two Unicode line terminators. */
  predicate IsSpace(c: char)
  {
    c == ' ' || c == '\t' || c == '\n' || c == '\r' || c == '\U{000B}' || c == '\U{000C}'
    || c == '\U{00A0}' || c == '\U{FEFF}' || c == '\U{2028}' || c == '\U{2029}'
  }

  /** `s` without its leading white space. */
  function TrimStart(s: string): (r: string)
    ensures |r| <= |s| && r == s[|s| - |r|..]
    ensures forall i | 0 <= i < |s| - |r| :: IsSpace(s[i])
    ensures r == [] || !IsSpace(r[0])
  {
    if s != [] && IsSpace(s[0]) then TrimStart(s[1..]) else s
  }

  /** The longest prefix of `s` made of decimal digits. */
  function DigitRun(s: string): (r: string)
    ensures r <= s && AllDigits(r)
    ensures |r| == |s| || !IsDigit(s[|r|])
  {
    if s != [] && IsDigit(s[0]) then [s[0]] + DigitRun(s[1..]) else []
  }

  /** The unsigned part of `parseInt`: the leading digits, or NaN (`None`) when there are none. */
  function ParseDigits(s: string): Option<nat>
  {
    var d := DigitRun(s);
    if d == [] then None else Some(DigitsValue(d))
  }

  /** `parseInt(s, 10)`: skip leading white space, read an optional sign and the longest run of
      decimal digits, ignore whatever follows; `None` stands for NaN. */
  function ParseInt(s: string): (r: Option<int>)
  {
    var t := TrimStart(s);
    if t != [] && t[0] == '-' then
      match ParseDigits(t[1..])
      case None => None
      case Some(v) => Some(-(v as int))
    else if t != [] && t[0] == '+' then
      match ParseDigits(t[1..])
      case None => None
      case Some(v) => Some(v)
    else ParseDigits(t)
  }

  lemma {:induction false} DigitRunOfDigits(d: string, rest: string)
    requires AllDigits(d)
    requires rest == [] || !IsDigit(rest[0])
    ensures DigitRun(d + rest) == d
  {
    if d != [] {
      assert (d + rest)[1..] == d[1..] + rest;
      DigitRunOfDigits(d[1..], rest);
    } else {
      assert d + rest == rest;
    }
  }

  lemma ParseDigitsOfDecimal(m: nat, rest: string)
    requires rest == [] || !IsDigit(rest[0])
    ensures ParseDigits(NatDecimal(m) + rest) == Some(m)
  {
    DigitRunOfDigits(NatDecimal(m), rest);
  }

  lemma TrimStartNoSpace(s: string)
    requires s != [] && !IsSpace(s[0])
    ensures TrimStart(s) == s
  {
  }

  lemma ParseIntMinus(tail: string, v: nat)
    requires ParseDigits(tail) == Some(v)
    ensures ParseInt(['-'] + tail) == Some(-(v as int))
  {
    var s := ['-'] + tail;
    TrimStartNoSpace(s);
    assert s[1..] == tail;
  }

  lemma ParseIntUnsigned(s: string, v: nat)
    requires s != [] && IsDigit(s[0])
    requires ParseDigits(s) == Some(v)
    ensures ParseInt(s) == Some(v)
  {
    TrimStartNoSpace(s);
  }

  /** `parseInt` reads back the decimal rendering of any integer, whatever non-digit text follows it. */
  lemma ParseIntDecimalPrefix(n: int, rest: string)
    requires rest == [] || !IsDigit(rest[0])
    ensures ParseInt(Decimal(n) + rest) == Some(n)
  {
    if n < 0 {
      var tail := NatDecimal(-n) + rest;
      assert Decimal(n) + rest == ['-'] + tail;
      ParseDigitsOfDecimal(-n, rest);
      ParseIntMinus(tail, -n);
    } else {
      var digits := NatDecimal(n);
      var s := digits + rest;
      assert Decimal(n) + rest == s;
      assert s[0] == digits[0];
      ParseDigitsOfDecimal(n, rest);
      ParseIntUnsigned(s, n);
    }
  }

  /** Round trip: `parseInt(String(n), 10) == n`. */
  lemma ParseIntDecimal(n: int)
    ensures ParseInt(Decimal(n)) == Some(n)
  {
    ParseIntDecimalPrefix(n, "");
    assert Decimal(n) + "" == Decimal(n);
  }

  /** ASCII case mapping of `toUpperCase`. */
  function UpperChar(c: char): char
  {
    if 'a' <= c <= 'z' then (c as int - 32) as char else c
  }

  /** `toUpperCase` with the ASCII mapping: each lower-case ASCII letter becomes its capital, no
      lower-case ASCII letter is left, and every other character is kept in its place. */
  function Upper(s: string): (r: string)
    ensures |r| == |s|
    ensures forall i | 0 <= i < |r| :: !('a' <= r[i] <= 'z')
    ensures forall i | 0 <= i < |s| :: 'a' <= s[i] <= 'z' || r[i] == s[i]
    ensures forall i | 0 <= i < |s| :: 'a' <= s[i] <= 'z' ==> r[i] as int == s[i] as int - 32
  {
    seq(|s|, i requires 0 <= i < |s| => UpperChar(s[i]))
  }

  /** Number of occurrences of `c` in `s`. */
  function Count(s: string, c: char): nat
  {
    if s == [] then 0 else (if s[0] == c then 1 else 0) + Count(s[1..], c)
  }

  lemma {:induction false} CountConcat(a: string, b: string, c: char)
    ensures Count(a + b, c) == Count(a, c) + Count(b, c)
  {
    if a != [] {
      assert (a + b)[1..] == a[1..] + b;
      CountConcat(a[1..], b, c);
    } else {
      assert a + b == b;
    }
  }

  lemma {:induction false} CountAbsent(s: string, c: char)
    ensures Count(s, c) == 0 <==> c !in s
  {
    if s != [] {
      CountAbsent(s[1..], c);
      assert s == [s[0]] + s[1..];
    }
  }

  /** `fields.join(sep)`. */
  function Join(fields: seq<string>, sep: string): string
  {
    if fields == [] then ""
    else if |fields| == 1 then fields[0]
    else fields[0] + sep + Join(fields[1..], sep)
  }

  /** `s.split(c)` for a one-character separator: the pieces between the occurrences of `c`. */
  function Split(s: string, c: char): (r: seq<string>)
    ensures |r| == Count(s, c) + 1
    ensures forall i | 0 <= i < |r| :: c !in r[i]
  {
    if s == [] then [""]
    else
      var rest := Split(s[1..], c);
      if s[0] == c then [""] + rest else [[s[0]] + rest[0]] + rest[1..]
  }

  /** Splitting and joining back with the same separator gives the string again. */
  lemma {:induction false} SplitJoin(s: string, c: char)
    ensures Join(Split(s, c), [c]) == s
  {
    if s != [] {
      var rest := Split(s[1..], c);
      SplitJoin(s[1..], c);
      if s[0] == c {
        assert Split(s, c) == [""] + rest;
        assert (([""] + rest)[1..]) == rest;
      } else {
        JoinConsFirst(s[0], rest, [c]);
      }
    }
  }

  lemma JoinConsFirst(x: char, fields: seq<string>, sep: string)
    requires |fields| > 0
    ensures Join([[x] + fields[0]] + fields[1..], sep) == [x] + Join(fields, sep)
  {
    var f := [[x] + fields[0]] + fields[1..];
    assert f[1..] == fields[1..];
  }

  /** A piece that holds no separator, followed by the separator, starts the split. */
  lemma {:induction false} SplitAfterPiece(a: string, b: string, c: char)
    requires c !in a
    ensures Split(a + [c] + b, c) == [a] + Split(b, c)
  {
    if a == [] {
      assert a + [c] + b == [c] + b;
      assert ([c] + b)[1..] == b;
    } else {
      assert (a + [c] + b)[1..] == a[1..] + [c] + b;
      SplitAfterPiece(a[1..], b, c);
      assert [a[0]] + a[1..] == a;
    }
  }

  /** A string without the separator splits into itself alone. */
  lemma {:induction false} SplitWhole(a: string, c: char)
    requires c !in a
    ensures Split(a, c) == [a]
  {
    if a != [] {
      SplitWhole(a[1..], c);
      assert a[0] != c;
      assert [a[0]] + a[1..] == a;
    }
  }

  /** `s.replace(c, "")` with a one-character search string: only the first occurrence goes. */
  function RemoveFirst(s: string, c: char): string
  {
    if s == [] then []
    else if s[0] == c then s[1..]
    else [s[0]] + RemoveFirst(s[1..], c)
  }

  /** It is the FIRST occurrence that goes: the text before it and the text after it are kept in
      order; a string without `c` is unchanged. */
  lemma {:induction false} RemoveFirstAt(s: string, c: char)
    ensures c !in s ==> RemoveFirst(s, c) == s
    ensures c in s ==> RemoveFirst(s, c) == s[..FirstIndex(s, c)] + s[FirstIndex(s, c) + 1..]
  {
    if s != [] && s[0] != c {
      var t := s[1..];
      assert s == [s[0]] + t;
      RemoveFirstAt(t, c);
      if c in t {
        var i := FirstIndex(t, c);
        assert FirstIndex(s, c) == i + 1;
        assert s[..i + 1] == [s[0]] + t[..i];
        assert s[i + 2..] == t[i + 1..];
      }
    }
  }

  /** `replace` removes one occurrence when there is one: one character and one `c` fewer. */
  lemma RemoveFirstCount(s: string, c: char)
    ensures Count(RemoveFirst(s, c), c) == if c in s then Count(s, c) - 1 else 0
    ensures |RemoveFirst(s, c)| == if c in s then |s| - 1 else |s|
  {
    CountAbsent(s, c);
    RemoveFirstAt(s, c);
    if c in s {
      var i := FirstIndex(s, c);
      assert s == s[..i] + ([s[i]] + s[i + 1..]);
      CountConcat(s[..i], [s[i]] + s[i + 1..], c);
      CountConcat([s[i]], s[i + 1..], c);
      CountConcat(s[..i], s[i + 1..], c);
      CountAbsent(s[..i], c);
    }
  }

  /** The position of the first occurrence of `c` in `s`. */
  function FirstIndex(s: string, c: char): (i: nat)
    requires c in s
    ensures i < |s| && s[i] == c && c !in s[..i]
  {
    if s[0] == c then 0
    else
      assert c in s[1..] by { assert s == [s[0]] + s[1..]; }
      var i := FirstIndex(s[1..], c);
      assert s[..i + 1] == [s[0]] + s[1..][..i];
      i + 1
  }

  /** Adding one more field to a join adds the separator and the field. */
  lemma {:induction false} JoinSnoc(fields: seq<string>, x: string, sep: string)
    requires |fields| > 0
    ensures Join(fields + [x], sep) == Join(fields, sep) + sep + x
  {
    var f := fields + [x];
    if |fields| == 1 {
      assert f[1..] == [x];
    } else {
      assert f[1..] == fields[1..] + [x];
      JoinSnoc(fields[1..], x, sep);
    }
  }

  /** Piece `k` of a line joined with a space-padded one-character separator: field `k`, with the
      space that follows the previous separator and the one that precedes the next. */
  function Padded(fields: seq<string>, k: nat): string
    requires k < |fields|
  {
    (if k > 0 then " " else "") + fields[k] + (if k < |fields| - 1 then " " else "")
  }

  /** A first character that is not the separator starts the first piece. */
  lemma SplitCons(x: char, s: string, c: char)
    requires x != c
    ensures Split([x] + s, c) == [[x] + Split(s, c)[0]] + Split(s, c)[1..]
  {
    assert ([x] + s)[1..] == s;
  }

  /** Splitting `x c rest...` at `c`: the first piece is `x` with its padding space, and the
      split of the rest follows, its first piece gaining the leading space. */
  lemma {:induction false} SplitPaddedHead(fields: seq<string>, c: char)
    requires |fields| > 1 && c != ' ' && c !in fields[0]
    ensures var q := Split(Join(fields[1..], [' ', c, ' ']), c);
      Split(Join(fields, [' ', c, ' ']), c) == [fields[0] + " "] + ([[' '] + q[0]] + q[1..])
  {
    var sep := [' ', c, ' '];
    var a := fields[0] + " ";
    var b := " " + Join(fields[1..], sep);
    assert Join(fields, sep) == a + [c] + b;
    assert c !in a;
    SplitAfterPiece(a, b, c);
    SplitCons(' ', Join(fields[1..], sep), c);
  }

  /** Fields free of the separator `c`, joined with " c ", split back at `c` into one piece per
      field: piece `k` is field `k` with its padding spaces. */
  lemma {:induction false} SplitPadded(fields: seq<string>, c: char)
    requires |fields| > 0 && c != ' '
    requires forall i | 0 <= i < |fields| :: c !in fields[i]
    ensures |Split(Join(fields, [' ', c, ' ']), c)| == |fields|
    ensures forall k | 0 <= k < |fields| :: Split(Join(fields, [' ', c, ' ']), c)[k] == Padded(fields, k)
  {
    var sep := [' ', c, ' '];
    if |fields| == 1 {
      SplitWhole(fields[0], c);
    } else {
      var rest := fields[1..];
      SplitPadded(rest, c);
      SplitPaddedHead(fields, c);
      var p := Split(Join(fields, sep), c);
      var q := Split(Join(rest, sep), c);
      forall k | 0 <= k < |fields|
        ensures p[k] == Padded(fields, k)
      {
        if k == 1 {
          assert q[0] == Padded(rest, 0);
        } else if k > 1 {
          assert p[k] == q[k - 1] == Padded(rest, k - 1);
        }
      }
    }
  }

  /** `s.endsWith(suffix)`. */
  predicate EndsWith(s: string, suffix: string)
  {
    |suffix| <= |s| && s[|s| - |suffix|..] == suffix
  }
}
