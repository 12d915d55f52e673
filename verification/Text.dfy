// The string operations of Rust's standard library that the parsers are made of.
// A string is its sequence of Unicode scalar values.
module Text {
  import opened Common

  const U32_MAX: nat := 0xFFFF_FFFF

  // Unicode White_Space, which is what `str::trim` removes.
  predicate IsSpace(c: char) {
    '\t' <= c <= '\r' || c == ' ' || c == '\U{85}' || c == '\U{A0}' || c == '\U{1680}'
    || '\U{2000}' <= c <= '\U{200A}' || c == '\U{2028}' || c == '\U{2029}'
    || c == '\U{202F}' || c == '\U{205F}' || c == '\U{3000}'
  }

  function TrimStart(s: string): string {
    if s != "" && IsSpace(s[0]) then TrimStart(s[1..]) else s
  }

  function TrimEnd(s: string): string {
    if s != "" && IsSpace(s[|s| - 1]) then TrimEnd(s[..|s| - 1]) else s
  }

  function Trim(s: string): string {
    TrimEnd(TrimStart(s))
  }

  predicate Trimmed(s: string) {
    s == "" || (!IsSpace(s[0]) && !IsSpace(s[|s| - 1]))
  }

  lemma {:induction false} TrimStartShape(s: string)
    ensures TrimStart(s) == "" || !IsSpace(TrimStart(s)[0])
    ensures |TrimStart(s)| <= |s| && TrimStart(s) == s[|s| - |TrimStart(s)|..]
  {
    if s != "" && IsSpace(s[0]) { TrimStartShape(s[1..]); }
  }

  lemma {:induction false} TrimEndShape(s: string)
    ensures TrimEnd(s) <= s
    ensures TrimEnd(s) == "" || !IsSpace(TrimEnd(s)[|TrimEnd(s)| - 1])
  {
    if s != "" && IsSpace(s[|s| - 1]) { TrimEndShape(s[..|s| - 1]); }
  }

  // Trimming leaves no white space at either end, and adds no character.
  lemma TrimIsTrimmed(s: string)
    ensures Trimmed(Trim(s))
    ensures forall c :: c in Trim(s) ==> c in s
  {
    TrimStartShape(s);
    TrimEndShape(TrimStart(s));
  }

  lemma TrimOfTrimmed(s: string)
    requires Trimmed(s)
    ensures Trim(s) == s
  {
  }

  // Trimming the front of a text stops at the first character that is not white space,
  // and trimming its end at the last.
  lemma {:induction false} TrimStartStops(a: string, c: char, rest: string)
    requires !IsSpace(c)
    ensures TrimStart(a + [c] + rest) == TrimStart(a) + [c] + rest
  {
    var s := a + [c] + rest;
    if a == "" {
      assert s == [c] + rest;
    } else {
      assert s[0] == a[0] && s[1..] == a[1..] + [c] + rest;
      if IsSpace(a[0]) { TrimStartStops(a[1..], c, rest); }
    }
  }

  lemma {:induction false} TrimEndStops(rest: string, c: char, a: string)
    requires !IsSpace(c)
    ensures TrimEnd(rest + [c] + a) == rest + [c] + TrimEnd(a)
  {
    var s := rest + [c] + a;
    if a == "" {
      assert s == rest + [c];
    } else {
      var n := |a| - 1;
      assert s[|s| - 1] == a[n] && s[..|s| - 1] == rest + [c] + a[..n];
      if IsSpace(a[n]) { TrimEndStops(rest, c, a[..n]); }
    }
  }

  lemma TrimAddsNothing(s: string, c: char)
    requires c !in s
    ensures c !in TrimStart(s) && c !in TrimEnd(s)
  {
    TrimStartShape(s);
    TrimEndShape(s);
  }

  lemma {:induction false} TrimStartOfSpace(w: string, rest: string)
    requires forall c :: c in w ==> IsSpace(c)
    ensures TrimStart(w + rest) == TrimStart(rest)
  {
    if w == "" {
      assert w + rest == rest;
    } else {
      assert w[0] in w && (w + rest)[1..] == w[1..] + rest;
      assert forall c :: c in w[1..] ==> c in w;
      TrimStartOfSpace(w[1..], rest);
    }
  }

  // `str::find(c)`; the length of the string stands for "not found".
  function Find(s: string, c: char): (i: nat)
    ensures i <= |s|
    ensures c !in s[..i]
    ensures i < |s| ==> s[i] == c
    ensures i == |s| ==> c !in s
  {
    if s == "" || s[0] == c then 0 else 1 + Find(s[1..], c)
  }

  // `str::split_once(c)`.
  function SplitOnce(s: string, c: char): Option<(string, string)> {
    var i := Find(s, c);
    if i < |s| then Some((s[..i], s[i + 1..])) else None
  }

  lemma SplitOnceAt(a: string, c: char, b: string)
    requires c !in a
    ensures SplitOnce(a + [c] + b, c) == Some((a, b))
  {
    var s := a + [c] + b;
    var i := Find(s, c);
    assert s[|a|] == c;
    assert forall k :: 0 <= k < |a| ==> s[k] == a[k] && s[k] != c;
    assert forall k :: 0 <= k < i ==> s[..i][k] == s[k];
    assert s[..|a|] == a && s[|a| + 1..] == b;
  }

  // `str::split(c)`: never empty, one piece more than there are separators.
  function Split(s: string, sep: char): (pieces: seq<string>)
    ensures |pieces| >= 1
  {
    if s == "" then [""]
    else
      var rest := Split(s[1..], sep);
      if s[0] == sep then [""] + rest else [[s[0]] + rest[0]] + rest[1..]
  }

  // `[..].join(sep)`.
  function Join(pieces: seq<string>, sep: char): string {
    if pieces == [] then ""
    else if |pieces| == 1 then pieces[0]
    else pieces[0] + [sep] + Join(pieces[1..], sep)
  }

  lemma {:induction false} SplitPiece(s: string, sep: char)
    requires sep !in s
    ensures Split(s, sep) == [s]
  {
    if s != "" {
      SplitPiece(s[1..], sep);
      assert [s[0]] + s[1..] == s;
    }
  }

  lemma {:induction false} SplitFirst(a: string, sep: char, rest: string)
    requires sep !in a
    ensures Split(a + [sep] + rest, sep) == [a] + Split(rest, sep)
  {
    var s := a + [sep] + rest;
    if a == "" {
      assert s == [sep] + rest && s[1..] == rest;
    } else {
      SplitFirst(a[1..], sep, rest);
      assert s[1..] == a[1..] + [sep] + rest;
      assert [a[0]] + a[1..] == a;
    }
  }

  // Splitting undoes joining when no piece holds the separator.
  lemma {:induction false} SplitJoin(pieces: seq<string>, sep: char)
    requires pieces != []
    requires forall i :: 0 <= i < |pieces| ==> sep !in pieces[i]
    ensures Split(Join(pieces, sep), sep) == pieces
  {
    if |pieces| == 1 {
      SplitPiece(pieces[0], sep);
    } else {
      SplitJoin(pieces[1..], sep);
      SplitFirst(pieces[0], sep, Join(pieces[1..], sep));
    }
  }

  // The comma-separated tokens of a list, trimmed.
  function Tokens(s: string): seq<string> {
    TrimAll(Split(s, ','))
  }

  function TrimAll(pieces: seq<string>): (r: seq<string>)
    ensures |r| == |pieces| && forall i :: 0 <= i < |r| ==> r[i] == Trim(pieces[i])
  {
    if pieces == [] then [] else [Trim(pieces[0])] + TrimAll(pieces[1..])
  }

  lemma SameTrims(p: seq<string>, q: seq<string>)
    requires |p| == |q| && forall i :: 0 <= i < |p| ==> Trim(p[i]) == Trim(q[i])
    ensures TrimAll(p) == TrimAll(q)
  {
  }

  lemma {:induction false} TrimAppendSpace(s: string, c: char)
    requires IsSpace(c)
    ensures Trim(s + [c]) == Trim(s)
  {
    if s == "" {
      assert [c][1..] == "";
    } else if IsSpace(s[0]) {
      TrimAppendSpace(s[1..], c);
      assert (s + [c])[1..] == s[1..] + [c];
    } else {
      assert TrimStart(s + [c]) == s + [c];
      assert (s + [c])[..|s|] == s;
    }
  }

  lemma {:induction false} SplitAppend(s: string, c: char, sep: char)
    requires c != sep
    ensures var p := Split(s, sep); var n := |p| - 1;
      Split(s + [c], sep) == p[..n] + [p[n] + [c]]
  {
    var p := Split(s, sep);
    var n := |p| - 1;
    if s == "" {
      assert s + [c] == [c] && [c] + "" == [c];
      assert Split([c], sep) == [[c]] by { assert [c][1..] == ""; }
    } else {
      SplitAppend(s[1..], c, sep);
      var q := Split(s[1..], sep);
      assert (s + [c])[1..] == s[1..] + [c] && (s + [c])[0] == s[0];
      if s[0] != sep && |q| == 1 {
        assert [s[0]] + (q[0] + [c]) == ([s[0]] + q[0]) + [c];
      }
    }
  }

  // Trimming a whole list does not change its trimmed tokens.
  lemma {:induction false} TokensTrimStart(s: string)
    ensures Tokens(TrimStart(s)) == Tokens(s)
  {
    if s != "" && IsSpace(s[0]) {
      TokensTrimStart(s[1..]);
      var q := Split(s[1..], ',');
      assert ([s[0]] + q[0])[1..] == q[0];
      assert Tokens(s) == Tokens(s[1..]);
    }
  }

  lemma TokensAppendSpace(s: string, c: char)
    requires IsSpace(c)
    ensures Tokens(s + [c]) == Tokens(s)
  {
    SplitAppend(s, c, ',');
    var p, q := Split(s, ','), Split(s + [c], ',');
    TrimAppendSpace(p[|p| - 1], c);
    assert |q| == |p|;
    assert forall i :: 0 <= i < |p| - 1 ==> q[i] == p[i];
    SameTrims(q, p);
  }

  lemma {:induction false} TokensTrimEnd(s: string)
    ensures Tokens(TrimEnd(s)) == Tokens(s)
  {
    if s != "" && IsSpace(s[|s| - 1]) {
      TokensTrimEnd(s[..|s| - 1]);
      TokensAppendSpace(s[..|s| - 1], s[|s| - 1]);
      assert s[..|s| - 1] + [s[|s| - 1]] == s;
    }
  }

  lemma TokensTrim(s: string)
    ensures Tokens(Trim(s)) == Tokens(s)
  {
    TokensTrimStart(s);
    TokensTrimEnd(TrimStart(s));
  }

  // `str::rfind(c)`; the length of the string stands for "not found".
  function RFind(s: string, c: char): (i: nat)
    ensures i <= |s|
    ensures i < |s| ==> s[i] == c && c !in s[i + 1..]
    ensures i == |s| ==> c !in s
  {
    if s == "" then 0
    else
      var n := |s| - 1;
      if s[n] == c then n
      else if RFind(s[..n], c) < n then RFind(s[..n], c) else |s|
  }

  // The first and the last place of a character, by what surrounds them.
  lemma FindAt(a: string, c: char, rest: string)
    requires c !in a
    ensures Find(a + [c] + rest, c) == |a|
  {
    var s := a + [c] + rest;
    var i := Find(s, c);
    assert s[|a|] == c;
    assert forall k :: 0 <= k < |a| ==> s[k] == a[k] && s[k] != c;
    assert forall k :: 0 <= k < i ==> s[..i][k] == s[k];
  }

  lemma {:induction false} RFindAt(rest: string, c: char, a: string)
    requires c !in a
    ensures RFind(rest + [c] + a, c) == |rest|
  {
    var s := rest + [c] + a;
    if a == "" {
      assert s == rest + [c];
    } else {
      var n := |a| - 1;
      assert s[|s| - 1] == a[n] && a[n] in a && s[..|s| - 1] == rest + [c] + a[..n];
      assert forall x :: x in a[..n] ==> x in a;
      RFindAt(rest, c, a[..n]);
    }
  }

  // `str::len`, in bytes of UTF-8.
  function Utf8Len(s: string): nat {
    if s == "" then 0
    else
      Utf8Len(s[1..]) +
      if s[0] < '\U{80}' then 1 else if s[0] < '\U{800}' then 2 else if s[0] < '\U{10000}' then 3 else 4
  }

  lemma {:induction false} AsciiLen(s: string)
    requires forall c :: c in s ==> c < '\U{80}'
    ensures Utf8Len(s) == |s|
  {
    if s != "" {
      assert s[0] in s && forall c :: c in s[1..] ==> c in s;
      AsciiLen(s[1..]);
    }
  }

  lemma WideLen()
    ensures Utf8Len(['\U{80}']) == Utf8Len(['\U{7FF}']) == 2
    ensures Utf8Len(['\U{800}']) == Utf8Len(['\U{FFFF}']) == 3
    ensures Utf8Len(['\U{10000}']) == 4
  {
    assert Utf8Len("") == 0;
  }

  // ---- Numbers ----

  predicate IsDigit(c: char) { '0' <= c <= '9' }

  function DigitChar(d: nat): char
    requires d < 10
  {
    '0' + d as char
  }

  // `{}` of an unsigned integer.
  function Decimal(n: nat): string {
    if n < 10 then [DigitChar(n)] else Decimal(n / 10) + [DigitChar(n % 10)]
  }

  lemma {:induction false} DecimalDigits(n: nat)
    ensures Decimal(n) != "" && forall c :: c in Decimal(n) ==> IsDigit(c)
  {
    if n >= 10 { DecimalDigits(n / 10); }
  }

  function Digits(s: string, acc: nat): Option<nat> {
    if s == "" then Some(acc)
    else if !IsDigit(s[0]) then None
    else
      var acc' := acc * 10 + (s[0] as nat - '0' as nat);
      if acc' > U32_MAX then None else Digits(s[1..], acc')
  }

  // `str::parse::<u32>()`: an optional plus sign, at least one ASCII digit, no overflow.
  function ParseU32(s: string): (n: Option<nat>)
  {
    if s == "" then None
    else if s[0] == '+' then (if |s| == 1 then None else Digits(s[1..], 0))
    else Digits(s, 0)
  }

  lemma {:induction false} DigitsAppend(s: string, acc: nat, c: char)
    requires IsDigit(c)
    ensures Digits(s + [c], acc) ==
      if Digits(s, acc) == None then None
      else
        var n := Digits(s, acc).value * 10 + (c as nat - '0' as nat);
        if n > U32_MAX then None else Some(n)
  {
    if s == "" {
      assert s + [c] == [c];
      assert Digits([c][1..], 0) == Some(0);
    } else if IsDigit(s[0]) {
      assert (s + [c])[1..] == s[1..] + [c] && (s + [c])[0] == s[0];
      var acc' := acc * 10 + (s[0] as nat - '0' as nat);
      if acc' <= U32_MAX { DigitsAppend(s[1..], acc', c); }
    } else {
      assert (s + [c])[0] == s[0];
    }
  }

  lemma {:induction false} DigitsOfDecimal(n: nat)
    requires n <= U32_MAX
    ensures Digits(Decimal(n), 0) == Some(n)
  {
    if n < 10 {
      assert Digits([DigitChar(n)][1..], n) == Some(n);
    } else {
      DigitsOfDecimal(n / 10);
      DigitsAppend(Decimal(n / 10), 0, DigitChar(n % 10));
    }
  }

  // Reading a printed number gives the number back.
  lemma ParseDecimal(n: nat)
    requires n <= U32_MAX
    ensures ParseU32(Decimal(n)) == Some(n)
  {
    DigitsOfDecimal(n);
    DecimalDigits(n);
    assert Decimal(n)[0] in Decimal(n);
  }

  // The number a string of digits stands for.
  function NumberOf(d: string): nat
    requires forall c :: c in d ==> IsDigit(c)
  {
    if d == "" then 0
    else
      assert d[|d| - 1] in d && IsDigit(d[|d| - 1]);
      NumberOf(d[..|d| - 1]) * 10 + (d[|d| - 1] as nat - '0' as nat)
  }

  lemma {:induction false} DigitsAreNumbers(d: string)
    requires forall c :: c in d ==> IsDigit(c)
    ensures Digits(d, 0) == if NumberOf(d) <= U32_MAX then Some(NumberOf(d)) else None
  {
    if d != "" {
      var n := |d| - 1;
      assert d[n] in d && d == d[..n] + [d[n]];
      DigitsAreNumbers(d[..n]);
      DigitsAppend(d[..n], 0, d[n]);
    }
  }

  // Digits are read as the number they stand for, with or without a plus sign, if that
  // has 32 bits; and nothing but digits is.
  lemma NumbersAreRead(d: string)
    requires d != ""
    ensures (forall c :: c in d ==> IsDigit(c)) ==>
      ParseU32(d) == ParseU32("+" + d) == if NumberOf(d) <= U32_MAX then Some(NumberOf(d)) else None
    ensures (exists c :: c in d && !IsDigit(c)) ==> ParseU32("+" + d) == None && (d[0] != '+' ==> ParseU32(d) == None)
    ensures ParseU32("") == ParseU32("+") == None
  {
    assert ("+" + d)[1..] == d && d[0] in d;
    if forall c :: c in d ==> IsDigit(c) { DigitsAreNumbers(d); }
    DigitsBound(d, 0);
  }

  lemma {:induction false} DigitsBound(s: string, acc: nat)
    requires acc <= U32_MAX
    ensures Digits(s, acc).Some? ==> Digits(s, acc).value <= U32_MAX
    ensures Digits(s, acc).Some? ==> forall c :: c in s ==> IsDigit(c)
  {
    if s != "" && IsDigit(s[0]) {
      var acc' := acc * 10 + (s[0] as nat - '0' as nat);
      if acc' <= U32_MAX { DigitsBound(s[1..], acc'); }
    }
  }

  lemma ParseU32Bound(s: string)
    ensures ParseU32(s).Some? ==> ParseU32(s).value <= U32_MAX
  {
    if s != "" {
      DigitsBound(s, 0);
      DigitsBound(s[1..], 0);
    }
  }
}
