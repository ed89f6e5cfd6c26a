/** The string operations the header codec uses: splitting, trimming, and numbers. */
module HeaderText {
  import opened Basics

  // ---- splitting --------------------------------------------------------------------

  /** The position of the first `c`, or the length of `s`. */
  function Find(s: string, c: char): (r: nat)
    ensures r <= |s| && c !in s[..r] && (r < |s| ==> s[r] == c)
  {
    if s == "" || s[0] == c then 0 else 1 + Find(s[1..], c)
  }

  /** `str::split`: always at least one part. */
  function Split(s: string, c: char): (r: seq<string>)
    ensures r != [] && forall p <- r :: c !in p
    decreases |s|
  {
    var i := Find(s, c);
    if i == |s| then assert s[..i] == s; [s] else [s[..i]] + Split(s[i + 1..], c)
  }

  lemma {:induction false} FindAt(p: string, c: char, rest: string)
    requires c !in p
    ensures Find(p + [c] + rest, c) == |p| && Find(p, c) == |p|
  {
    if p != "" {
      FindAt(p[1..], c, rest);
      assert (p + [c] + rest)[1..] == p[1..] + [c] + rest;
    }
  }

  lemma SplitOne(p: string, c: char)
    requires c !in p
    ensures Split(p, c) == [p]
  {
    FindAt(p, c, "");
  }

  lemma SplitHead(p: string, c: char, rest: string)
    requires c !in p
    ensures Split(p + [c] + rest, c) == [p] + Split(rest, c)
  {
    FindAt(p, c, rest);
    var s := p + [c] + rest;
    assert s[..|p|] == p && s[|p| + 1..] == rest;
  }

  /** Splitting splits at every separator. */
  lemma {:induction false} SplitAppend(a: string, c: char, b: string)
    ensures Split(a + [c] + b, c) == Split(a, c) + Split(b, c)
    decreases |a|
  {
    hide Split, Find;
    var i := Find(a, c);
    if i == |a| {
      assert a[..i] == a;
      SplitOne(a, c);
      SplitHead(a, c, b);
    } else {
      var p, rest := a[..i], a[i + 1..];
      assert a == p + [c] + rest;
      SplitAppend(rest, c, b);
      SplitHead(p, c, rest);
      SplitHead(p, c, rest + [c] + b);
      assert a + [c] + b == p + [c] + (rest + [c] + b);
      assert [p] + (Split(rest, c) + Split(b, c)) == [p] + Split(rest, c) + Split(b, c);
    }
  }

  // ---- trimming ---------------------------------------------------------------------

  /** The White_Space property of Unicode, as `str::trim` uses it. */
  predicate IsBlank(c: char) {
    var u := c as int;
    (9 <= u <= 13) || u == 32 || u == 0x85 || u == 0xA0 || u == 0x1680 || (0x2000 <= u <= 0x200A)
    || u == 0x2028 || u == 0x2029 || u == 0x202F || u == 0x205F || u == 0x3000
  }

  predicate Blank(s: string) { forall i :: 0 <= i < |s| ==> IsBlank(s[i]) }

  function TrimStart(s: string): string {
    if s != "" && IsBlank(s[0]) then TrimStart(s[1..]) else s
  }

  function TrimEnd(s: string): string {
    if s != "" && IsBlank(s[|s| - 1]) then TrimEnd(s[..|s| - 1]) else s
  }

  function Trim(s: string): string { TrimEnd(TrimStart(s)) }

  lemma {:induction false} TrimStartBlank(w: string, s: string)
    requires Blank(w)
    ensures TrimStart(w + s) == TrimStart(s)
  {
    if w == "" {
      assert w + s == s;
    } else {
      assert (w + s)[1..] == w[1..] + s;
      TrimStartBlank(w[1..], s);
    }
  }

  lemma {:induction false} TrimEndBlank(s: string, w: string)
    requires Blank(w)
    ensures TrimEnd(s + w) == TrimEnd(s)
  {
    if w == "" {
      assert s + w == s;
    } else {
      assert (s + w)[..|s + w| - 1] == s + w[..|w| - 1];
      TrimEndBlank(s, w[..|w| - 1]);
    }
  }

  lemma {:induction false} TrimStartKeeps(s: string, w: string)
    ensures Blank(w) ==> TrimEnd(TrimStart(s + w)) == TrimEnd(TrimStart(s))
  {
    if s == "" {
      assert s + w == w;
      if Blank(w) {
        TrimStartBlank(w, "");
        assert w + "" == w;
      }
    } else if IsBlank(s[0]) {
      assert (s + w)[1..] == s[1..] + w;
      TrimStartKeeps(s[1..], w);
    } else if Blank(w) {
      TrimEndBlank(s, w);
    }
  }

  /** Blanks around a text do not matter. */
  lemma TrimBlanks(w: string, s: string, v: string)
    requires Blank(w) && Blank(v)
    ensures Trim(w + s + v) == Trim(s)
  {
    TrimStartKeeps(w + s, v);
    TrimStartBlank(w, s);
  }

  lemma TrimNone(s: string)
    requires s != "" ==> !IsBlank(s[0]) && !IsBlank(s[|s| - 1])
    ensures Trim(s) == s
  {
  }

  lemma {:induction false} TrimStartIn(key: string, c: char, rest: string)
    requires !IsBlank(c)
    ensures TrimStart(key + [c] + rest) == TrimStart(key) + [c] + rest
  {
    hide IsBlank;
    var s := key + [c] + rest;
    if key == "" {
      assert s == [c] + rest && s[0] == c;
      assert TrimStart(key) + [c] + rest == s;
    } else {
      assert s[0] == key[0] && s[1..] == key[1..] + [c] + rest;
      TrimStartIn(key[1..], c, rest);
    }
  }

  lemma {:induction false} TrimEndIn(front: string, c: char, value: string)
    requires !IsBlank(c)
    ensures TrimEnd(front + [c] + value) == front + [c] + TrimEnd(value)
  {
    hide IsBlank;
    var s := front + [c] + value;
    if value == "" {
      assert s == front + [c] && s[|s| - 1] == c;
      assert front + [c] + TrimEnd(value) == s;
    } else {
      var n := |value| - 1;
      assert s[|s| - 1] == value[n] && s[..|s| - 1] == front + [c] + value[..n];
      TrimEndIn(front, c, value[..n]);
    }
  }

  lemma {:induction false} StartTrimmed(s: string) returns (w: string)
    ensures Blank(w) && s == w + TrimStart(s)
  {
    if s != "" && IsBlank(s[0]) {
      var v := StartTrimmed(s[1..]);
      w := [s[0]] + v;
      assert s == [s[0]] + s[1..];
    } else {
      w := "";
    }
  }

  lemma {:induction false} EndTrimmed(s: string) returns (w: string)
    ensures Blank(w) && s == TrimEnd(s) + w
  {
    if s != "" && IsBlank(s[|s| - 1]) {
      var v := EndTrimmed(s[..|s| - 1]);
      w := v + [s[|s| - 1]];
      assert s == s[..|s| - 1] + [s[|s| - 1]];
    } else {
      w := "";
    }
  }

  /** Trimming one end first makes no difference. */
  lemma TrimHalf(s: string)
    ensures Trim(TrimStart(s)) == Trim(s) && Trim(TrimEnd(s)) == Trim(s)
  {
    hide TrimStart, TrimEnd;
    var w := StartTrimmed(s);
    TrimBlanks(w, TrimStart(s), "");
    assert w + TrimStart(s) + "" == s;
    var v := EndTrimmed(s);
    TrimBlanks("", TrimEnd(s), v);
    assert "" + TrimEnd(s) + v == s;
  }

  // ---- numbers ------------------------------------------------------------------------

  function DigitChar(d: nat): (c: char)
    requires d < 16
    ensures c == "0123456789abcdef"[d]
  {
    if d < 10 then (d + 48) as char else (d + 87) as char
  }

  /** `char::to_digit`, in either case. */
  function DigitOf(c: char, radix: nat): Option<nat> {
    var u := c as int;
    var d := if 48 <= u <= 57 then u - 48 else if 97 <= u <= 122 then u - 87 else if 65 <= u <= 90 then u - 55 else 99;
    if d < radix then Some(d) else None
  }

  /** Printing a number, most significant digit first. */
  function Digits(n: nat, radix: nat): (s: string)
    requires 2 <= radix <= 16
    ensures s != ""
  {
    if n < radix then [DigitChar(n)] else Digits(n / radix, radix) + [DigitChar(n % radix)]
  }

  function Value(s: string, radix: nat): Option<nat> {
    if s == "" then Some(0)
    else
      var front, d := Value(s[..|s| - 1], radix), DigitOf(s[|s| - 1], radix);
      if front.Some? && d.Some? then Some(front.value * radix + d.value) else None
  }

  function Power(b: nat, e: nat): nat { if e == 0 then 1 else b * Power(b, e - 1) }

  /** Digits count by position: the first one of `k` more weighs `radix` to the power of `k`. */
  lemma {:induction false} ValueByPosition(c: char, s: string, radix: nat)
    ensures var d, v := DigitOf(c, radix), Value(s, radix);
      Value([c] + s, radix) == if d.Some? && v.Some? then Some(d.value * Power(radix, |s|) + v.value) else None
  {
    hide DigitOf;
    if s == "" {
      assert [c] + s == [c] && [c][..0] == "";
    } else {
      var n := |s| - 1;
      assert ([c] + s)[..|s|] == [c] + s[..n];
      ValueByPosition(c, s[..n], radix);
      if DigitOf(c, radix).Some? && Value(s, radix).Some? {
        Weigh(DigitOf(c, radix).value, Power(radix, n), Value(s[..n], radix).value, radix);
      }
    }
  }

  lemma Weigh(d: nat, w: nat, v: nat, radix: nat)
    ensures (d * w + v) * radix == d * (radix * w) + v * radix
  {
  }

  /** `from_str_radix` of an unsigned type: an optional plus sign, at least one digit, and
      a value in range. */
  function ParseUint(s: string, radix: nat, max: nat): Option<nat> {
    var digits := if |s| > 1 && s[0] == '+' then s[1..] else s;
    var v := Value(digits, radix);
    if digits != "" && v.Some? && v.value <= max then v else None
  }

  /** `parse_hex_u64` and `parse_hex_u32`: a prefix is stripped if there is one. */
  function ParseHex(s: string, max: nat): Option<nat> {
    ParseUint(if |s| >= 2 && (s[..2] == "0x" || s[..2] == "0X") then s[2..] else s, 16, max)
  }

  /** A printed digit: no blank, no separator, no sign. */
  predicate Plain(c: char) { (48 <= c as int <= 57) || (97 <= c as int <= 102) }

  lemma DigitRoundTrip(d: nat, radix: nat)
    requires d < radix <= 16
    ensures DigitOf(DigitChar(d), radix) == Some(d) && Plain(DigitChar(d))
  {
  }

  lemma ValueSnoc(s: string, d: nat, radix: nat, v: nat)
    requires d < radix <= 16 && Value(s, radix) == Some(v)
    ensures Value(s + [DigitChar(d)], radix) == Some(v * radix + d)
  {
    DigitRoundTrip(d, radix);
    assert (s + [DigitChar(d)])[..|s|] == s;
  }

  lemma {:induction false} DigitsRoundTrip(n: nat, radix: nat)
    requires radix == 10 || radix == 16
    ensures Value(Digits(n, radix), radix) == Some(n)
    ensures forall c <- Digits(n, radix) :: Plain(c)
    ensures n > 0 ==> Digits(n, radix)[0] != '0'
    decreases n
  {
    hide Value, Plain;
    DigitRoundTrip(n % radix, radix);
    if n < radix {
      assert n % radix == n && 0 * radix + n == n;
      EmptyValue(radix);
      ValueSnoc("", n, radix, 0);
      assert "" + [DigitChar(n)] == [DigitChar(n)];
    } else {
      DigitsRoundTrip(n / radix, radix);
      ValueSnoc(Digits(n / radix, radix), n % radix, radix, n / radix);
      assert n / radix * radix + n % radix == n;
    }
  }

  lemma EmptyValue(radix: nat)
    ensures Value("", radix) == Some(0)
  {
  }

  lemma DecimalRoundTrip(n: nat, max: nat)
    requires n <= max
    ensures ParseUint(Digits(n, 10), 10, max) == Some(n)
  {
    DigitsRoundTrip(n, 10);
    assert Digits(n, 10)[0] in Digits(n, 10);
  }

  lemma HexRoundTrip(n: nat, max: nat)
    requires n <= max
    ensures ParseHex("0x" + Digits(n, 16), max) == Some(n)
  {
    DigitsRoundTrip(n, 16);
    var s := "0x" + Digits(n, 16);
    assert s[..2] == "0x" && s[2..] == Digits(n, 16);
    assert Digits(n, 16)[0] in Digits(n, 16);
  }

  /** The forms a number may take: either prefix, or none, or a plus sign. */
  lemma NumberForms(s: string, radix: nat, max: nat)
    ensures ParseHex("0x" + s, max) == ParseHex("0X" + s, max) == ParseUint(s, 16, max)
    ensures |s| < 2 || (s[..2] != "0x" && s[..2] != "0X") ==> ParseHex(s, max) == ParseUint(s, 16, max)
    ensures s != "" && s[0] != '+' ==> ParseUint("+" + s, radix, max) == ParseUint(s, radix, max)
    ensures radix <= 36 ==> ParseUint("", radix, max) == ParseUint("+", radix, max) == None
  {
    hide Value;
    assert ("0x" + s)[..2] == "0x" && ("0x" + s)[2..] == s && ("0X" + s)[..2] == "0X" && ("0X" + s)[2..] == s;
    assert ("+" + s)[1..] == s;
    BadPlus(radix);
  }

  lemma BadPlus(radix: nat)
    ensures radix <= 36 ==> Value("+", radix) == None
  {
  }
}
