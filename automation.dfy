/** The command runner that drives the game from outside: it parses one text command at
    a time, sends key presses and mouse clicks to the display, pauses, and captures
    numbered screenshots.  The calls to the display tools and to the clock are recorded
    as effects in a log; whether a tool call succeeds is a parameter. */
module Automation {
  import opened Wrappers

  // ---------------------------------------------------------------------------
  // Whitespace, stripping and splitting

  /** The characters the runtime's string methods treat as whitespace. */
  predicate IsSpace(c: char)
  {
    var n := c as int;
    (0x09 <= n <= 0x0D) || (0x1C <= n <= 0x20) || n == 0x85 || n == 0xA0 || n == 0x1680
    || (0x2000 <= n <= 0x200A) || n == 0x2028 || n == 0x2029 || n == 0x202F || n == 0x205F
    || n == 0x3000
  }

  predicate AllSpace(s: string)
  {
    forall i :: 0 <= i < |s| ==> IsSpace(s[i])
  }

  predicate NoSpace(s: string)
  {
    forall i :: 0 <= i < |s| ==> !IsSpace(s[i])
  }

  /** s without its leading whitespace. */
  function StripLeading(s: string): (r: string)
    ensures |r| <= |s| && r == s[|s| - |r|..]
    ensures |r| > 0 ==> !IsSpace(r[0])
    decreases |s|
  {
    if |s| > 0 && IsSpace(s[0]) then StripLeading(s[1..]) else s
  }

  /** s without its trailing whitespace. */
  function StripTrailing(s: string): (r: string)
    ensures |r| <= |s| && r == s[..|r|]
    ensures |r| > 0 ==> !IsSpace(r[|r| - 1])
    decreases |s|
  {
    if |s| > 0 && IsSpace(s[|s| - 1]) then StripTrailing(s[..|s| - 1]) else s
  }

  /** s without whitespace at either end. */
  function Strip(s: string): string
  {
    StripTrailing(StripLeading(s))
  }

  lemma {:induction false} StripLeadingPadding(pre: string, s: string)
    requires AllSpace(pre)
    ensures StripLeading(pre + s) == StripLeading(s)
    decreases |pre|
  {
    if |pre| > 0 {
      assert (pre + s)[0] == pre[0] && IsSpace(pre[0]);
      assert (pre + s)[1..] == pre[1..] + s;
      StripLeadingPadding(pre[1..], s);
    } else {
      assert pre + s == s;
    }
  }

  lemma {:induction false} StripTrailingPadding(s: string, post: string)
    requires AllSpace(post)
    ensures StripTrailing(s + post) == StripTrailing(s)
    decreases |post|
  {
    if |post| > 0 {
      assert (s + post)[|s + post| - 1] == post[|post| - 1] && IsSpace(post[|post| - 1]);
      assert (s + post)[..|s + post| - 1] == s + post[..|post| - 1];
      StripTrailingPadding(s, post[..|post| - 1]);
    } else {
      assert s + post == s;
    }
  }

  /** A string that starts and ends with a non-space character is its own strip. */
  lemma StripUntrimmed(s: string)
    requires |s| > 0 && !IsSpace(s[0]) && !IsSpace(s[|s| - 1])
    ensures Strip(s) == s
  {
  }

  /** What StripLeading removes is whitespace. */
  lemma {:induction false} StripLeadingRemovesSpace(s: string)
    ensures AllSpace(s[..|s| - |StripLeading(s)|])
    decreases |s|
  {
    if |s| > 0 && IsSpace(s[0]) {
      StripLeadingRemovesSpace(s[1..]);
      var k := |s| - |StripLeading(s)|;
      assert s[..k] == [s[0]] + s[1..][..k - 1];
    }
  }

  /** What StripTrailing removes is whitespace. */
  lemma {:induction false} StripTrailingRemovesSpace(s: string)
    ensures AllSpace(s[|StripTrailing(s)|..])
    decreases |s|
  {
    if |s| > 0 && IsSpace(s[|s| - 1]) {
      var p := s[..|s| - 1];
      StripTrailingRemovesSpace(p);
      var k := |StripTrailing(s)|;
      assert s[k..] == p[k..] + [s[|s| - 1]];
    }
  }

  lemma {:induction false} StripLeadingAppend(s: string, post: string)
    ensures StripLeading(s + post) ==
      if |StripLeading(s)| > 0 then StripLeading(s) + post else StripLeading(post)
    decreases |s|
  {
    if |s| == 0 {
      assert s + post == post;
    } else {
      assert (s + post)[0] == s[0];
      if IsSpace(s[0]) {
        assert (s + post)[1..] == s[1..] + post;
        StripLeadingAppend(s[1..], post);
      }
    }
  }

  /** Whitespace around a command is ignored, however much of it there is. */
  lemma StripPadding(pre: string, s: string, post: string)
    requires AllSpace(pre) && AllSpace(post)
    ensures Strip(pre + s + post) == Strip(s)
  {
    assert pre + s + post == pre + (s + post);
    StripLeadingPadding(pre, s + post);
    StripTrailingAfterLeading(s, post);
  }

  lemma StripTrailingAfterLeading(s: string, post: string)
    requires AllSpace(post)
    ensures StripTrailing(StripLeading(s + post)) == Strip(s)
  {
    StripLeadingAppend(s, post);
    var l := StripLeading(s);
    if |l| > 0 {
      StripTrailingPadding(l, post);
    } else {
      assert post + [] == post;
      StripLeadingPadding(post, []);
      assert StripLeading(post) == [];
    }
  }

  /** Stripping twice is stripping once. */
  lemma StripIdempotent(s: string)
    ensures Strip(Strip(s)) == Strip(s)
  {
    var t := Strip(s);
    if |t| > 0 {
      var l := StripLeading(s);
      assert t == l[..|t|];
      StripUntrimmed(t);
    }
  }

  /** The longest prefix of s without whitespace. */
  function Word(s: string): (r: string)
    ensures |r| <= |s| && r == s[..|r|] && NoSpace(r)
    ensures |r| < |s| ==> IsSpace(s[|r|])
    ensures |s| > 0 && !IsSpace(s[0]) ==> |r| > 0
  {
    if |s| == 0 || IsSpace(s[0]) then [] else [s[0]] + Word(s[1..])
  }

  /** The whitespace-separated words of s: runs of whitespace separate, and none at the
      ends produce empty words. */
  function Split(s: string): seq<string>
    decreases |s|
  {
    var t := StripLeading(s);
    if |t| == 0 then [] else
      var w := Word(t);
      [w] + Split(t[|w|..])
  }

  /** Every word is non-empty and free of whitespace. */
  predicate Words(ws: seq<string>)
  {
    forall i :: 0 <= i < |ws| ==> |ws[i]| > 0 && NoSpace(ws[i])
  }

  /** A split yields words: each one non-empty and free of whitespace. */
  lemma {:induction false} SplitWords(s: string)
    ensures Words(Split(s))
    decreases |s|
  {
    var t := StripLeading(s);
    if |t| > 0 {
      var w := Word(t);
      SplitWords(t[|w|..]);
      WordsCons(w, Split(t[|w|..]));
    }
  }

  lemma WordsCons(w: string, rest: seq<string>)
    requires |w| > 0 && NoSpace(w) && Words(rest)
    ensures Words([w] + rest)
  {
    assert forall i :: 0 < i < |rest| + 1 ==> ([w] + rest)[i] == rest[i - 1];
  }

  lemma {:induction false} WordOf(w: string, rest: string)
    requires NoSpace(w)
    requires |rest| > 0 ==> IsSpace(rest[0])
    ensures Word(w + rest) == w
    decreases |w|
  {
    var s := w + rest;
    if |w| == 0 {
      assert s == rest;
    } else {
      assert s[0] == w[0] && !IsSpace(w[0]);
      assert s[1..] == w[1..] + rest;
      assert NoSpace(w[1..]) by {
        forall i | 0 <= i < |w| - 1 ensures !IsSpace(w[1..][i]) {
          assert w[1..][i] == w[i + 1];
        }
      }
      WordOf(w[1..], rest);
      assert Word(s) == [s[0]] + Word(s[1..]);
      assert w == [w[0]] + w[1..];
    }
  }

  /** A word followed by a space: the word comes off first. */
  lemma SplitCons(w: string, rest: string)
    requires |w| > 0 && NoSpace(w)
    ensures Split(w + " " + rest) == [w] + Split(rest)
  {
    var s := w + " " + rest;
    assert s == w + (" " + rest);
    assert s[0] == w[0];
    assert StripLeading(s) == s;
    WordOf(w, " " + rest);
    assert s[|w|..] == " " + rest;
    StripLeadingPadding(" ", rest);
  }

  /** A single word splits into itself. */
  lemma SplitSingle(w: string)
    requires |w| > 0 && NoSpace(w)
    ensures Split(w) == [w]
  {
    assert StripLeading(w) == w;
    WordOf(w, []);
    assert w + [] == w;
    assert w[|w|..] == [];
  }

  /** Splitting words joined by single spaces gives the words back. */
  lemma {:induction false} SplitJoined(words: seq<string>)
    requires Words(words)
    ensures Split(Joined(words)) == words
    decreases |words|
  {
    if |words| == 1 {
      assert Joined(words) == words[0];
      SplitSingle(words[0]);
    } else if |words| > 1 {
      var tail := words[1..];
      assert Joined(words) == words[0] + " " + Joined(tail);
      assert forall i :: 0 <= i < |tail| ==> tail[i] == words[i + 1];
      SplitCons(words[0], Joined(tail));
      SplitJoined(tail);
      assert words == [words[0]] + tail;
    }
  }

  /** The words joined by single spaces. */
  function Joined(words: seq<string>): string
  {
    if |words| == 0 then ""
    else if |words| == 1 then words[0]
    else words[0] + " " + Joined(words[1..])
  }

  // ---------------------------------------------------------------------------
  // Integers

  predicate IsDigit(c: char)
  {
    '0' <= c <= '9'
  }

  function DigitChar(d: nat): char
    requires d < 10
  {
    ['0', '1', '2', '3', '4', '5', '6', '7', '8', '9'][d]
  }

  function DigitValue(c: char): (r: nat)
    requires IsDigit(c)
    ensures r < 10 && DigitChar(r) == c
  {
    (c as int - '0' as int) as nat
  }

  /** The decimal literals the integer conversion accepts after the sign: digits, with
      single underscores allowed between two digits. */
  predicate WellFormedDigits(s: string)
  {
    && |s| > 0 && IsDigit(s[0]) && IsDigit(s[|s| - 1])
    && (forall i :: 0 <= i < |s| ==> IsDigit(s[i]) || s[i] == '_')
    && (forall i :: 0 <= i < |s| - 1 ==> s[i] == '_' ==> s[i + 1] != '_')
  }

  /** The value of a decimal literal, underscores ignored. */
  function DigitsValue(s: string): nat
    requires forall i :: 0 <= i < |s| ==> IsDigit(s[i]) || s[i] == '_'
  {
    if |s| == 0 then 0
    else if s[|s| - 1] == '_' then DigitsValue(s[..|s| - 1])
    else 10 * DigitsValue(s[..|s| - 1]) + DigitValue(s[|s| - 1])
  }

  /** The conversion of a string to an integer: surrounding whitespace, then an
      optional sign, then a well-formed decimal literal; anything else is rejected. */
  function ParseInt(s: string): Option<int>
  {
    ParseLiteral(Strip(s))
  }

  /** An optional sign followed by a well-formed decimal literal. */
  function ParseLiteral(t: string): (r: Option<int>)
    ensures r.Some? ==> |t| > 0
  {
    if |t| > 0 && (t[0] == '+' || t[0] == '-') then
      var d := t[1..];
      if WellFormedDigits(d) then
        var v: int := DigitsValue(d);
        Some(if t[0] == '-' then -v else v)
      else None
    else if WellFormedDigits(t) then Some(DigitsValue(t))
    else None
  }

  /** The decimal digits of n, without leading zeros. */
  function Digits(n: nat): (r: string)
    ensures |r| > 0 && forall i :: 0 <= i < |r| ==> IsDigit(r[i])
  {
    if n < 10 then [DigitChar(n)] else Digits(n / 10) + [DigitChar(n % 10)]
  }

  /** The decimal form of x, with a minus sign when negative. */
  function IntString(x: int): (r: string)
    ensures |r| > 0 && NoSpace(r) && !IsSpace(r[0])
  {
    if x < 0 then "-" + Digits(-x) else Digits(x)
  }

  lemma {:induction false} DigitsRoundTrip(n: nat)
    ensures DigitsValue(Digits(n)) == n
  {
    var d := Digits(n);
    if n >= 10 {
      DigitsRoundTrip(n / 10);
      assert d[..|d| - 1] == Digits(n / 10);
    }
  }

  /** The decimal digits of n form a well-formed literal whose value is n. */
  lemma DigitsLiteral(n: nat)
    ensures WellFormedDigits(Digits(n)) && DigitsValue(Digits(n)) == n
  {
    var d := Digits(n);
    DigitsRoundTrip(n);
    assert IsDigit(d[0]) && IsDigit(d[|d| - 1]);
  }

  /** Converting the decimal form of any integer gives the integer back. */
  lemma ParseIntRoundTrip(x: int)
    ensures ParseInt(IntString(x)) == Some(x)
  {
    if x < 0 {
      var n: nat := -x;
      DigitsLiteral(n);
      assert IntString(x) == ['-'] + Digits(n);
      SignedLiteral('-', Digits(n));
    } else {
      DigitsLiteral(x);
      UnsignedLiteral(IntString(x));
    }
  }

  /** An underscore between two groups of digits is accepted and ignored: the literal
      reads as the two groups run together. */
  lemma ParseIntUnderscore(a: string, b: string)
    requires WellFormedDigits(a) && WellFormedDigits(b)
    ensures ParseInt(a + "_" + b) == ParseInt(a + b)
  {
    JoinedWellFormed(a, b);
    UnderscoreWellFormed(a, b);
    UnsignedLiteral(a + "_" + b);
    UnsignedLiteral(a + b);
    DigitsValueUnderscore(a, b);
  }

  predicate DigitsOrUnderscores(s: string)
  {
    forall i :: 0 <= i < |s| ==> IsDigit(s[i]) || s[i] == '_'
  }

  lemma JoinedWellFormed(a: string, b: string)
    requires WellFormedDigits(a) && WellFormedDigits(b)
    ensures WellFormedDigits(a + b)
  {
    var t := a + b;
    assert t[0] == a[0] && t[|t| - 1] == b[|b| - 1];
    forall i | 0 <= i < |t|
      ensures IsDigit(t[i]) || t[i] == '_'
    {
      if i < |a| { assert t[i] == a[i]; } else { assert t[i] == b[i - |a|]; }
    }
    forall i | 0 <= i < |t| - 1
      ensures t[i] == '_' ==> t[i + 1] != '_'
    {
      if i < |a| - 1 {
        assert t[i] == a[i] && t[i + 1] == a[i + 1];
      } else if i == |a| - 1 {
        assert t[i] == a[|a| - 1];
      } else {
        assert t[i] == b[i - |a|] && t[i + 1] == b[i + 1 - |a|];
      }
    }
  }

  lemma UnderscoreWellFormed(a: string, b: string)
    requires WellFormedDigits(a) && WellFormedDigits(b)
    ensures WellFormedDigits(a + "_" + b)
  {
    var t := a + "_" + b;
    assert t[0] == a[0] && t[|t| - 1] == b[|b| - 1];
    forall i | 0 <= i < |t|
      ensures IsDigit(t[i]) || t[i] == '_'
    {
      if i < |a| { assert t[i] == a[i]; }
      else if i > |a| { assert t[i] == b[i - |a| - 1]; }
    }
    forall i | 0 <= i < |t| - 1
      ensures t[i] == '_' ==> t[i + 1] != '_'
    {
      if i < |a| - 1 {
        assert t[i] == a[i] && t[i + 1] == a[i + 1];
      } else if i == |a| - 1 {
        assert t[i] == a[|a| - 1];
      } else if i == |a| {
        assert t[i + 1] == b[0];
      } else {
        assert t[i] == b[i - |a| - 1] && t[i + 1] == b[i - |a|];
      }
    }
  }

  /** The value of a literal does not see an underscore placed between two parts. */
  lemma {:induction false} DigitsValueUnderscore(a: string, b: string)
    requires DigitsOrUnderscores(a) && DigitsOrUnderscores(b)
    ensures DigitsOrUnderscores(a + "_" + b) && DigitsOrUnderscores(a + b)
    ensures DigitsValue(a + "_" + b) == DigitsValue(a + b)
    decreases |b|
  {
    var t, u := a + "_" + b, a + b;
    assert DigitsOrUnderscores(t) by {
      forall i | 0 <= i < |t| ensures IsDigit(t[i]) || t[i] == '_' {
        if i < |a| { assert t[i] == a[i]; } else if i > |a| { assert t[i] == b[i - |a| - 1]; }
      }
    }
    assert DigitsOrUnderscores(u) by {
      forall i | 0 <= i < |u| ensures IsDigit(u[i]) || u[i] == '_' {
        if i < |a| { assert u[i] == a[i]; } else { assert u[i] == b[i - |a|]; }
      }
    }
    if |b| == 0 {
      assert t[..|t| - 1] == a && u == a;
    } else {
      var p := b[..|b| - 1];
      assert DigitsOrUnderscores(p) by {
        forall i | 0 <= i < |p| ensures IsDigit(p[i]) || p[i] == '_' { assert p[i] == b[i]; }
      }
      assert t[..|t| - 1] == a + "_" + p && t[|t| - 1] == b[|b| - 1];
      assert u[..|u| - 1] == a + p && u[|u| - 1] == b[|b| - 1];
      DigitsValueUnderscore(a, p);
    }
  }

  /** A sign followed by a well-formed literal is read with that sign. */
  lemma SignedLiteral(sign: char, d: string)
    requires sign == '+' || sign == '-'
    requires WellFormedDigits(d)
    ensures ParseInt([sign] + d) == Some(if sign == '-' then -(DigitsValue(d) as int) else DigitsValue(d))
  {
    var t := [sign] + d;
    assert t[0] == sign && t[|t| - 1] == d[|d| - 1];
    assert IsDigit(d[|d| - 1]);
    StripUntrimmed(t);
    SignedLiteralStripped(sign, d);
  }

  lemma SignedLiteralStripped(sign: char, d: string)
    requires sign == '+' || sign == '-'
    requires WellFormedDigits(d)
    ensures ParseLiteral([sign] + d) == Some(if sign == '-' then -(DigitsValue(d) as int) else DigitsValue(d))
  {
    assert ([sign] + d)[1..] == d;
  }

  /** A leading zero does not change a literal's value. */
  lemma {:induction false} LeadingZero(d: string)
    requires forall i :: 0 <= i < |d| ==> IsDigit(d[i]) || d[i] == '_'
    ensures DigitsValue("0" + d) == DigitsValue(d)
    decreases |d|
  {
    if |d| > 0 {
      var p := d[..|d| - 1];
      assert ("0" + d)[..|d|] == "0" + p;
      LeadingZero(p);
    }
  }

  lemma LeadingZeroWellFormed(d: string)
    requires WellFormedDigits(d)
    ensures WellFormedDigits("0" + d)
  {
    var t := "0" + d;
    assert forall i :: 0 < i < |t| ==> t[i] == d[i - 1];
    assert t[0] == '0' && t[|t| - 1] == d[|d| - 1];
    forall i | 0 <= i < |t| - 1
      ensures t[i] == '_' ==> t[i + 1] != '_'
    {
      if i > 0 {
        assert t[i] == d[i - 1] && t[i + 1] == d[i];
      }
    }
  }

  /** Leading zeros are accepted and do not change the value read. */
  lemma LeadingZerosAccepted(d: string)
    requires WellFormedDigits(d)
    ensures ParseInt("0" + d) == ParseInt(d)
  {
    LeadingZeroWellFormed(d);
    UnsignedLiteral("0" + d);
    UnsignedLiteral(d);
    LeadingZero(d);
  }

  /** A well-formed literal without a sign is read as its value. */
  lemma UnsignedLiteral(t: string)
    requires WellFormedDigits(t)
    ensures ParseInt(t) == Some(DigitsValue(t))
  {
    assert IsDigit(t[0]) && IsDigit(t[|t| - 1]);
    assert !IsSpace(t[0]) && !IsSpace(t[|t| - 1]);
    StripUntrimmed(t);
    assert !(t[0] == '+' || t[0] == '-');
    assert ParseLiteral(t) == Some(DigitsValue(t));
  }

  /** Whitespace around a literal is ignored. */
  lemma ParseIntIgnoresPadding(pre: string, s: string, post: string)
    requires AllSpace(pre) && AllSpace(post)
    ensures ParseInt(pre + s + post) == ParseInt(s)
  {
    StripPadding(pre, s, post);
  }

  /** A bare sign, an underscore at either end or doubled, and any other character are
      rejected. */
  lemma ParseIntRejects()
    ensures ParseInt("") == None && ParseInt("-") == None
    ensures ParseInt("_1") == None && ParseInt("1__0") == None && ParseInt("1_") == None
    ensures ParseInt("12a") == None
  {
    RejectsLiteral("-");
    RejectsLiteral("_1");
    assert !WellFormedDigits("1__0") by { assert "1__0"[1] == '_' && "1__0"[2] == '_'; }
    RejectsLiteral("1__0");
    RejectsLiteral("1_");
    assert !WellFormedDigits("12a") by { assert !IsDigit("12a"[2]); }
    RejectsLiteral("12a");
  }

  lemma RejectsLiteral(t: string)
    requires |t| > 0 && !IsSpace(t[0]) && !IsSpace(t[|t| - 1])
    requires ParseLiteral(t) == None
    ensures ParseInt(t) == None
  {
    StripUntrimmed(t);
  }

  // ---------------------------------------------------------------------------
  // Commands

  datatype Command =
    | Keyboard(key: string)
    | Click(x: int, y: int)
    | InvalidCoordinates
    | InvalidFormat
    | Screenshot
    | Wait
    | Unknown

  /** How a command line is read, once stripped: a "keyboard " prefix takes the rest of
      the line as the key; a "click " prefix needs at least three words, the second and
      third integers; then the exact words "screenshot" and "wait". */
  function ParseCommand(command: string): Command
  {
    ParseStripped(Strip(command))
  }

  /** How a command line without surrounding whitespace is read. */
  function ParseStripped(c: string): Command
  {
    if |c| >= 9 && c[..9] == "keyboard " then Keyboard(c[9..])
    else if |c| >= 6 && c[..6] == "click " then ParseClick(Split(c))
    else if c == "screenshot" then Screenshot
    else if c == "wait" then Wait
    else Unknown
  }

  /** How the words of a "click " line are read. */
  function ParseClick(parts: seq<string>): Command
  {
    if |parts| >= 3 then
      var x, y := ParseInt(parts[1]), ParseInt(parts[2]);
      if x.Some? && y.Some? then Click(x.value, y.value) else InvalidCoordinates
    else InvalidFormat
  }

  /** A command line that needs no stripping means what its stripped form means. */
  lemma ParsesAs(c: string, cmd: Command)
    requires |c| > 0 && !IsSpace(c[0]) && !IsSpace(c[|c| - 1])
    requires ParseStripped(c) == cmd
    ensures ParseCommand(c) == cmd
  {
    StripUntrimmed(c);
  }

  lemma KeyboardStripped(key: string)
    ensures ParseStripped("keyboard " + key) == Keyboard(key)
  {
    var c := "keyboard " + key;
    assert c[..9] == "keyboard ";
    assert c[9..] == key;
  }

  /** A keyboard command sends exactly the text after "keyboard ". */
  lemma KeyboardRoundTrip(key: string)
    requires |key| > 0 && !IsSpace(key[|key| - 1])
    ensures ParseCommand("keyboard " + key) == Keyboard(key)
  {
    var c := "keyboard " + key;
    assert c[0] == 'k' && c[|c| - 1] == key[|key| - 1];
    KeyboardStripped(key);
    ParsesAs(c, Keyboard(key));
  }

  /** A stripped line that starts with "click " is read by its words. */
  lemma ClickStripped(c: string)
    requires |c| >= 6 && c[..6] == "click "
    ensures ParseStripped(c) == ParseClick(Split(c))
  {
    NotKeyboard(c);
  }

  lemma NotKeyboard(c: string)
    requires |c| >= 6 && c[..6] == "click "
    ensures !(|c| >= 9 && c[..9] == "keyboard ")
  {
    assert c[1] == 'l';
    if |c| >= 9 {
      assert c[..9][1] == c[1];
    }
  }

  lemma ClickWords(sx: string, sy: string)
    requires |sx| > 0 && NoSpace(sx) && |sy| > 0 && NoSpace(sy)
    ensures Split("click " + sx + " " + sy) == ["click", sx, sy]
  {
    assert "click " + sx + " " + sy == "click" + " " + (sx + " " + sy);
    SplitCons("click", sx + " " + sy);
    SplitCons(sx, sy);
    SplitSingle(sy);
  }

  lemma ClickLineStripped(sx: string, sy: string)
    requires |sx| > 0 && NoSpace(sx) && |sy| > 0 && NoSpace(sy)
    ensures ParseStripped("click " + sx + " " + sy) == ParseClick(["click", sx, sy])
  {
    var c := "click " + sx + " " + sy;
    assert c[..6] == "click ";
    ClickStripped(c);
    ClickWords(sx, sy);
  }

  lemma ClickLineTrimmed(sx: string, sy: string)
    requires |sx| > 0 && |sy| > 0 && !IsSpace(sy[|sy| - 1])
    ensures Strip("click " + sx + " " + sy) == "click " + sx + " " + sy
  {
    var c := "click " + sx + " " + sy;
    assert c[0] == 'c' && c[|c| - 1] == sy[|sy| - 1];
    StripUntrimmed(c);
  }

  /** A line "click sx sy" is read from exactly the words "click", sx and sy. */
  lemma ClickLine(sx: string, sy: string)
    requires |sx| > 0 && NoSpace(sx) && |sy| > 0 && NoSpace(sy)
    ensures ParseCommand("click " + sx + " " + sy) == ParseClick(["click", sx, sy])
  {
    ClickLineStripped(sx, sy);
    ClickLineTrimmed(sx, sy);
  }

  /** Two words that convert to integers make a click at those integers. */
  lemma ClickParts(sx: string, sy: string, x: int, y: int)
    requires ParseInt(sx) == Some(x) && ParseInt(sy) == Some(y)
    ensures ParseClick(["click", sx, sy]) == Click(x, y)
  {
  }

  /** A click command built from two integers parses back to those integers. */
  lemma ClickRoundTrip(x: int, y: int)
    ensures ParseCommand("click " + IntString(x) + " " + IntString(y)) == Click(x, y)
  {
    var sx, sy := IntString(x), IntString(y);
    ClickLine(sx, sy);
    ParseIntRoundTrip(x);
    ParseIntRoundTrip(y);
    ClickParts(sx, sy, x, y);
  }

  /** Words after the third do not change how a click is read. */
  lemma ClickIgnoresExtraWords(parts: seq<string>, extra: seq<string>)
    requires |parts| >= 3
    ensures ParseClick(parts + extra) == ParseClick(parts)
  {
    assert (parts + extra)[1] == parts[1] && (parts + extra)[2] == parts[2];
  }

  /** A line whose first character is neither 'k' nor 'c' has neither command prefix. */
  lemma NoCommandPrefix(c: string)
    requires |c| > 0 && c[0] != 'k' && c[0] != 'c'
    ensures !(|c| >= 9 && c[..9] == "keyboard ") && !(|c| >= 6 && c[..6] == "click ")
  {
    if |c| >= 9 {
      assert c[..9][0] == c[0];
    }
    if |c| >= 6 {
      assert c[..6][0] == c[0];
    }
  }

  /** Only the exact line "screenshot" selects a screenshot. */
  lemma ScreenshotExact(c: string)
    ensures ParseStripped(c) == Screenshot <==> c == "screenshot"
  {
    if c == "screenshot" {
      NoCommandPrefix(c);
    }
  }

  /** Only the exact line "wait" selects a pause. */
  lemma WaitExact(c: string)
    ensures ParseStripped(c) == Wait <==> c == "wait"
  {
    if c == "wait" {
      NoCommandPrefix(c);
    }
  }

  /** "keyboard" without the space after it is not a keyboard command. */
  lemma BareKeyboardUnknown()
    ensures ParseCommand("keyboard") == Unknown
  {
    var c := "keyboard";
    assert c[0] == 'k' && c[|c| - 1] == 'd';
    assert !(|c| >= 6 && c[..6] == "click ") by {
      assert c[..6][0] == 'k';
    }
    ParsesAs(c, Unknown);
  }

  /** The whitespace around a command never changes what it means. */
  lemma ParseIgnoresPadding(pre: string, command: string, post: string)
    requires AllSpace(pre) && AllSpace(post)
    ensures ParseCommand(pre + command + post) == ParseCommand(command)
  {
    StripPadding(pre, command, post);
  }

  /** "click" followed by a single word is a format error. */
  lemma ClickMissingCoordinate(sx: string)
    requires |sx| > 0 && NoSpace(sx)
    ensures ParseCommand("click " + sx) == InvalidFormat
  {
    var c := "click " + sx;
    assert |Split(c)| == 2 by {
      assert c == "click" + " " + sx;
      SplitCons("click", sx);
      SplitSingle(sx);
    }
    assert c[..6] == "click ";
    ClickStripped(c);
    assert c[0] == 'c' && c[|c| - 1] == sx[|sx| - 1];
    ParsesAs(c, InvalidFormat);
  }

  /** A coordinate that is not an integer is a coordinate error, and no click is made. */
  lemma ClickBadCoordinate(sx: string, sy: string)
    requires |sx| > 0 && NoSpace(sx) && |sy| > 0 && NoSpace(sy)
    requires ParseInt(sx).None? || ParseInt(sy).None?
    ensures ParseCommand("click " + sx + " " + sy) == InvalidCoordinates
  {
    ClickLine(sx, sy);
  }

  // ---------------------------------------------------------------------------
  // Key names

  /** ASCII lower case.  For the lookup below it agrees with full Unicode lower case:
      no key in the table contains a letter that some other character lowers to. */
  function Lower(s: string): (r: string)
    ensures |r| == |s|
    ensures forall i :: 0 <= i < |s| ==>
      r[i] == if 'A' <= s[i] <= 'Z' then (s[i] as int + 32) as char else s[i]
  {
    if |s| == 0 then [] else
      var c := s[0];
      [if 'A' <= c <= 'Z' then (c as int + 32) as char else c] + Lower(s[1..])
  }

  /** The key names the display tool spells differently. */
  const KeyMapping: map<string, string> := map[
    "w" := "w", "a" := "a", "s" := "s", "d" := "d", "r" := "r",
    "space" := "space", "enter" := "Return", "esc" := "Escape"]

  /** The name sent for a key: the table entry for its lower-case form, otherwise the
      key exactly as given. */
  function MapKey(key: string): (r: string)
    ensures Lower(key) in KeyMapping ==> r == KeyMapping[Lower(key)]
    ensures Lower(key) !in KeyMapping ==> r == key
  {
    var k := Lower(key);
    if k in KeyMapping && KeyMapping[k] != "" then KeyMapping[k] else key
  }

  lemma {:induction false} LowerIdempotent(s: string)
    ensures Lower(Lower(s)) == Lower(s)
  {
  }

  /** The lookup ignores case: a key and its lower-case form are sent under the same
      name whenever the table knows the key. */
  lemma MapKeyIgnoresCase(key: string)
    requires Lower(key) in KeyMapping
    ensures MapKey(key) == MapKey(Lower(key))
  {
    LowerIdempotent(key);
  }

  /** Table keys are found whatever their case. */
  lemma MapKeyExamples()
    ensures MapKey("ESC") == "Escape" && MapKey("Enter") == "Return" && MapKey("W") == "w"
  {
    assert Lower("ESC") == "esc";
    assert Lower("Enter") == "enter";
    assert Lower("W") == "w";
  }

  /** A key outside the table passes through with its own case. */
  lemma MapKeyPassThrough()
    ensures MapKey("Left") == "Left"
  {
    assert Lower("Left") == "left";
  }

  // ---------------------------------------------------------------------------
  // Screenshot files

  const ScreenshotDir: string := "/app/screenshots"

  /** n in decimal, padded with zeros on the left to at least three digits. */
  function Pad3(n: nat): (r: string)
    ensures |r| >= 3 && forall i :: 0 <= i < |r| ==> IsDigit(r[i])
    ensures n < 1000 ==> |r| == 3
  {
    DigitsLength(n);
    var d := Digits(n);
    if |d| >= 3 then d else if |d| == 2 then "0" + d else "00" + d
  }

  /** Numbers below 10, 100 and 1000 have at most one, two and three digits. */
  lemma {:induction false} DigitsLength(n: nat)
    ensures n < 10 ==> |Digits(n)| == 1
    ensures n < 100 ==> |Digits(n)| <= 2
    ensures n < 1000 ==> |Digits(n)| <= 3
  {
    if n >= 10 {
      DigitsLength(n / 10);
    }
  }

  /** The padded number reads back as the number. */
  lemma Pad3Value(n: nat)
    ensures DigitsValue(Pad3(n)) == n
  {
    var d := Digits(n);
    DigitsRoundTrip(n);
    if |d| == 2 {
      LeadingZero(d);
    } else if |d| < 2 {
      LeadingZero(d);
      LeadingZero("0" + d);
      assert "00" + d == "0" + ("0" + d);
    }
  }

  /** The file name of the count-th screenshot of an action. */
  function ScreenshotName(count: nat, actionName: string): string
  {
    "screenshot_" + Pad3(count) + "_" + actionName + ".png"
  }

  /** The path of the file, inside the screenshot directory. */
  function ScreenshotPath(count: nat, actionName: string): string
  {
    ScreenshotDir + "/" + ScreenshotName(count, actionName)
  }

  /** The position of the first underscore in s, or |s| when there is none. */
  function FirstUnderscore(s: string): (r: nat)
    ensures r <= |s|
  {
    if |s| == 0 || s[0] == '_' then 0 else 1 + FirstUnderscore(s[1..])
  }

  lemma {:induction false} FirstUnderscoreAfter(a: string, x: string)
    requires forall i :: 0 <= i < |a| ==> a[i] != '_'
    ensures FirstUnderscore(a + "_" + x) == |a|
    decreases |a|
  {
    if |a| > 0 {
      assert (a + "_" + x)[1..] == a[1..] + "_" + x;
      FirstUnderscoreAfter(a[1..], x);
    } else {
      assert a + "_" + x == "_" + x;
    }
  }

  /** A string of the form a_x, where a has no underscore, is cut apart at its first
      underscore in one way only. */
  lemma SplitAtSeparator(a: string, x: string, b: string, y: string)
    requires forall i :: 0 <= i < |a| ==> a[i] != '_'
    requires forall i :: 0 <= i < |b| ==> b[i] != '_'
    requires a + "_" + x == b + "_" + y
    ensures a == b && x == y
  {
    var s := a + "_" + x;
    FirstUnderscoreAfter(a, x);
    FirstUnderscoreAfter(b, y);
    assert a == s[..|a|] && b == (b + "_" + y)[..|b|];
    assert x == s[|a| + 1..] && y == (b + "_" + y)[|b| + 1..];
  }

  /** Distinct counts give distinct files whatever the action names, so no screenshot
      overwrites an earlier one while the count grows. */
  lemma ScreenshotNamesDistinct(c1: nat, a1: string, c2: nat, a2: string)
    requires ScreenshotName(c1, a1) == ScreenshotName(c2, a2)
    ensures c1 == c2 && a1 == a2
  {
    var p1, p2 := Pad3(c1), Pad3(c2);
    ScreenshotNameTail(c1, a1);
    ScreenshotNameTail(c2, a2);
    SplitAtSeparator(p1, a1 + ".png", p2, a2 + ".png");
    Pad3Value(c1);
    Pad3Value(c2);
    assert a1 == (a1 + ".png")[..|a1|];
    assert a2 == (a2 + ".png")[..|a2|];
  }

  /** What follows the fixed "screenshot_" prefix of a screenshot's name. */
  lemma ScreenshotNameTail(c: nat, a: string)
    ensures ScreenshotName(c, a)[11..] == Pad3(c) + "_" + (a + ".png")
  {
    var t := Pad3(c) + "_" + (a + ".png");
    assert ScreenshotName(c, a) == "screenshot_" + t;
    assert ("screenshot_" + t)[11..] == t;
  }

  // ---------------------------------------------------------------------------
  // The runner

  /** What the runner does to the outside world. */
  datatype Effect =
    | SendKey(name: string)      // one key press through the display tool
    | SendClick(x: int, y: int)  // pointer moved to (x, y), a 0.1 s pause, then button 1
    | Pause(millis: nat)         // the runner sleeps
    | Capture(path: string)      // the screen is captured into path

  /** The action name a command's screenshot is filed under. */
  function ActionName(cmd: Command): string
  {
    match cmd
    case Keyboard(key) => "keyboard_" + key
    case Click(x, y) => "click_" + IntString(x) + "_" + IntString(y)
    case _ => "manual"
  }

  /** How many screenshots a command takes: one after a delivered key press or click,
      one for "screenshot", none otherwise. */
  function ScreenshotsTaken(cmd: Command, delivered: bool): nat
  {
    match cmd
    case Keyboard(_) => if delivered then 1 else 0
    case Click(_, _) => if delivered then 1 else 0
    case Screenshot => 1
    case _ => 0
  }

  /** The effects of one parsed command, when the screenshot count was count and the
      key press or click reports `delivered`. */
  function CommandEffects(cmd: Command, delivered: bool, count: nat): seq<Effect>
  {
    var shot := [Capture(ScreenshotPath(count + 1, ActionName(cmd)))];
    match cmd
    case Keyboard(key) => [SendKey(MapKey(key))] + (if delivered then [Pause(500)] + shot else [])
    case Click(x, y) => [SendClick(x, y)] + (if delivered then [Pause(500)] + shot else [])
    case Screenshot => shot
    case Wait => [Pause(1000)]
    case _ => []
  }

  /** The number of captures among the effects. */
  function Captures(effects: seq<Effect>): nat
  {
    if |effects| == 0 then 0
    else Captures(effects[..|effects| - 1]) + (if effects[|effects| - 1].Capture? then 1 else 0)
  }

  /** Every command captures at most one screenshot, under the next number and the
      command's action name, and the count of captures is what the runner adds to its
      screenshot count; a command that is not understood does nothing at all. */
  lemma CommandEffectsShape(cmd: Command, delivered: bool, count: nat)
    ensures Captures(CommandEffects(cmd, delivered, count)) == ScreenshotsTaken(cmd, delivered) <= 1
    ensures forall e :: e in CommandEffects(cmd, delivered, count) && e.Capture? ==>
      e.path == ScreenshotPath(count + 1, ActionName(cmd))
    ensures cmd.InvalidCoordinates? || cmd.InvalidFormat? || cmd.Unknown? ==>
      CommandEffects(cmd, delivered, count) == []
  {
    var e := CommandEffects(cmd, delivered, count);
    if |e| == 3 {
      CapturesOfThree(e[0], e[1], e[2]);
      assert e == [e[0], e[1], e[2]];
    } else if |e| == 1 {
      CapturesOfThree(e[0], e[0], e[0]);
      assert e == [e[0]];
    }
  }

  lemma CapturesOfThree(a: Effect, b: Effect, c: Effect)
    ensures Captures([a]) == if a.Capture? then 1 else 0
    ensures Captures([a, b, c]) ==
      (if a.Capture? then 1 else 0) + (if b.Capture? then 1 else 0) + (if c.Capture? then 1 else 0)
  {
    assert [a, b, c][..2] == [a, b];
    assert [a, b][..1] == [a];
    assert [a][..0] == [];
  }

  lemma ClickEffects(x: int, y: int, delivered: bool, count: nat)
    ensures CommandEffects(Click(x, y), delivered, count) == [SendClick(x, y)] +
      if delivered then [Pause(500)] + [Capture(ScreenshotPath(count + 1, "click_" + IntString(x) + "_" + IntString(y)))]
      else []
  {
  }

  /** Screenshots taken under different counts never share a file. */
  lemma ScreenshotPathsDistinct(c1: nat, a1: string, c2: nat, a2: string)
    requires c1 != c2
    ensures ScreenshotPath(c1, a1) != ScreenshotPath(c2, a2)
  {
    var d := ScreenshotDir + "/";
    if ScreenshotPath(c1, a1) == ScreenshotPath(c2, a2) {
      assert (d + ScreenshotName(c1, a1))[|d|..] == ScreenshotName(c1, a1);
      assert (d + ScreenshotName(c2, a2))[|d|..] == ScreenshotName(c2, a2);
      ScreenshotNamesDistinct(c1, a1, c2, a2);
    }
  }

  class GameAutomation {
    /** Screenshots taken so far. */
    var screenshotCount: nat
    /** Everything done to the outside world, oldest first. */
    var log: seq<Effect>

    constructor ()
      ensures screenshotCount == 0 && log == []
    {
      screenshotCount := 0;
      log := [];
    }

    /** Counts the screenshot, then captures the screen into the next numbered file; the
        path is returned when the capture succeeded. */
    method TakeScreenshot(actionName: string, captured: bool) returns (path: Option<string>)
      modifies this
      ensures screenshotCount == old(screenshotCount) + 1
      ensures log == old(log) + [Capture(ScreenshotPath(screenshotCount, actionName))]
      ensures path == if captured then Some(ScreenshotPath(screenshotCount, actionName)) else None
    {
      screenshotCount := screenshotCount + 1;
      var filepath := ScreenshotDir + "/" + ScreenshotName(screenshotCount, actionName);
      log := log + [Capture(filepath)];
      if captured {
        return Some(filepath);
      }
      return None;
    }

    /** Presses a key, under its mapped name; reports whether the tool succeeded. */
    method SendKeyboardEvent(key: string, delivered: bool) returns (success: bool)
      modifies this
      ensures screenshotCount == old(screenshotCount)
      ensures log == old(log) + [SendKey(MapKey(key))] && success == delivered
    {
      var mappedKey := MapKey(key);
      log := log + [SendKey(mappedKey)];
      return delivered;
    }

    /** Clicks at (x, y); reports whether the tool succeeded. */
    method SendClickEvent(x: int, y: int, delivered: bool) returns (success: bool)
      modifies this
      ensures screenshotCount == old(screenshotCount)
      ensures log == old(log) + [SendClick(x, y)] && success == delivered
    {
      log := log + [SendClick(x, y)];
      return delivered;
    }

    /** Runs one command line.  The effects it leaves in the log are those of the parsed
        command, and the screenshot count grows by the screenshots the command takes. */
    method ExecuteCommand(command: string, delivered: bool, captured: bool)
      modifies this
      ensures log == old(log) + CommandEffects(ParseCommand(command), delivered, old(screenshotCount))
      ensures screenshotCount == old(screenshotCount) + ScreenshotsTaken(ParseCommand(command), delivered)
    {
      var c := Strip(command);
      ExecuteStripped(c, delivered, captured);
    }

    /** Runs a command line that has been stripped, branch by branch. */
    method ExecuteStripped(c: string, delivered: bool, captured: bool)
      modifies this
      ensures log == old(log) + CommandEffects(ParseStripped(c), delivered, old(screenshotCount))
      ensures screenshotCount == old(screenshotCount) + ScreenshotsTaken(ParseStripped(c), delivered)
    {
      if |c| >= 9 && c[..9] == "keyboard " {
        RunKeyboard(c[9..], delivered, captured);
      } else if |c| >= 6 && c[..6] == "click " {
        RunClick(Split(c), delivered, captured);
      } else if c == "screenshot" {
        var _ := TakeScreenshot("manual", captured);
      } else if c == "wait" {
        log := log + [Pause(1000)];
      } else {
        assert ParseStripped(c) == Unknown;
      }
    }

    /** A "keyboard" command: the key press, then on success a pause and a screenshot. */
    method RunKeyboard(key: string, delivered: bool, captured: bool)
      modifies this
      ensures log == old(log) + CommandEffects(Keyboard(key), delivered, old(screenshotCount))
      ensures screenshotCount == old(screenshotCount) + ScreenshotsTaken(Keyboard(key), delivered)
    {
      var success := SendKeyboardEvent(key, delivered);
      if success {
        log := log + [Pause(500)];
        var _ := TakeScreenshot("keyboard_" + key, captured);
      }
    }

    /** A click at (x, y), then on success a pause and a screenshot. */
    method ClickAt(x: int, y: int, delivered: bool, captured: bool)
      modifies this
      ensures log == old(log) + CommandEffects(Click(x, y), delivered, old(screenshotCount))
      ensures screenshotCount == old(screenshotCount) + ScreenshotsTaken(Click(x, y), delivered)
    {
      ClickEffects(x, y, delivered, screenshotCount);
      var success := SendClickEvent(x, y, delivered);
      if success {
        log := log + [Pause(500)];
        var _ := TakeScreenshot("click_" + IntString(x) + "_" + IntString(y), captured);
      }
    }

    /** A "click" command, by its words: the click when both coordinates are integers,
        then on success a pause and a screenshot; nothing when a word is missing or a
        coordinate is not an integer. */
    method RunClick(parts: seq<string>, delivered: bool, captured: bool)
      modifies this
      ensures log == old(log) + CommandEffects(ParseClick(parts), delivered, old(screenshotCount))
      ensures screenshotCount == old(screenshotCount) + ScreenshotsTaken(ParseClick(parts), delivered)
    {
      if |parts| >= 3 {
        var x := ParseInt(parts[1]);
        var y := ParseInt(parts[2]);
        if x.Some? && y.Some? {
          assert ParseClick(parts) == Click(x.value, y.value);
          ClickAt(x.value, y.value, delivered, captured);
        } else {
          assert ParseClick(parts) == InvalidCoordinates;
          assert CommandEffects(InvalidCoordinates, delivered, screenshotCount) == [];
        }
      } else {
        assert CommandEffects(InvalidFormat, delivered, screenshotCount) == [];
      }
    }
  }
}
