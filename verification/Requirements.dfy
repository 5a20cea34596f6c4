/**
 The requirements of an update package: how the text that lists them is taken apart, and what it
 means for a device to meet one.
 */
module Requirements {
  import opened CStrings
  import opened ActionQueue
  import opened Wrappers

  const MAX_OPTIONS: nat := 32

  // ---- strip ----

  predicate IsSpace(c: char)
  {
    c == ' ' || '\t' <= c <= '\r'
  }

  /** No white space at either end. */
  predicate Trim(s: string)
  {
    s == "" || (!IsSpace(s[0]) && !IsSpace(s[|s| - 1]))
  }

  predicate AllSpace(s: string)
  {
    forall c :: c in s ==> IsSpace(c)
  }

  function LeftTrim(s: string): string
  {
    if s != "" && IsSpace(s[0]) then LeftTrim(s[1..]) else s
  }

  function RightTrim(s: string): string
  {
    if s != "" && IsSpace(s[|s| - 1]) then RightTrim(s[..|s| - 1]) else s
  }

  function Stripped(s: string): string
  {
    RightTrim(LeftTrim(s))
  }

  /** strip */
  method Strip(s: string) returns (r: string)
    ensures r == Stripped(s)
  {
    var i := 0;
    while i < |s| && IsSpace(s[i])
      invariant i <= |s| && LeftTrim(s[i..]) == LeftTrim(s)
    {
      assert s[i..][1..] == s[i + 1..];
      i := i + 1;
    }
    var t := s[i..];
    var n := |t|;
    assert t[..n] == t;
    while n > 0 && IsSpace(t[n - 1])
      invariant n <= |t| && RightTrim(t[..n]) == RightTrim(t)
    {
      assert t[..n][..n - 1] == t[..n - 1];
      n := n - 1;
    }
    r := t[..n];
  }

  lemma {:induction false} RightTrims(s: string)
    ensures RightTrim(s) <= s && AllSpace(s[|RightTrim(s)|..])
    ensures RightTrim(s) != "" ==> !IsSpace(RightTrim(s)[|RightTrim(s)| - 1])
  {
    if s != "" && IsSpace(s[|s| - 1]) {
      RightTrims(s[..|s| - 1]);
      var n := |RightTrim(s)|;
      assert s[n..] == s[..|s| - 1][n..] + [s[|s| - 1]];
    }
  }

  lemma {:induction false} LeftTrims(s: string)
    ensures |LeftTrim(s)| <= |s| && AllSpace(s[..|s| - |LeftTrim(s)|]) && s[|s| - |LeftTrim(s)|..] == LeftTrim(s)
    ensures LeftTrim(s) != "" ==> !IsSpace(LeftTrim(s)[0])
  {
    if s != "" && IsSpace(s[0]) {
      LeftTrims(s[1..]);
      var n := |s| - |LeftTrim(s)|;
      assert s[..n] == [s[0]] + s[1..][..n - 1] && s[n..] == s[1..][n - 1..];
    }
  }

  /** What strip leaves has no white space at its ends, and it took nothing but white space away. */
  lemma StripTrims(s: string) returns (before: string, after: string)
    ensures Trim(Stripped(s)) && s == before + Stripped(s) + after && AllSpace(before) && AllSpace(after)
  {
    var t := LeftTrim(s);
    var k, m := |s| - |t|, |RightTrim(t)|;
    LeftTrims(s);
    RightTrims(t);
    before, after := s[..k], t[m..];
    ThreeParts(s, t, RightTrim(t));
    FirstStays(t);
  }

  lemma ThreeParts(s: string, t: string, r: string)
    requires |t| <= |s| && s[|s| - |t|..] == t && r <= t
    ensures s == s[..|s| - |t|] + r + t[|r|..]
  {
    assert t == r + t[|r|..];
    assert s == s[..|s| - |t|] + t;
  }

  lemma FirstStays(t: string)
    requires t != "" ==> !IsSpace(t[0])
    ensures RightTrim(t) != "" ==> !IsSpace(RightTrim(t)[0])
  {
    RightTrims(t);
  }

  lemma TrimStays(s: string)
    requires Trim(s)
    ensures Stripped(s) == s
  {
  }

  // ---- the alternatives of a requirement ----

  /** At most n pieces between bars; the last one takes the rest, bars included. */
  function Options(text: string, n: nat): (r: seq<string>)
    requires n > 0
  {
    var i := Find(text, '|');
    if n == 1 || i == |text| then [text] else [text[..i]] + Options(text[i + 1..], n - 1)
  }

  lemma OneOff(done: seq<string>, last: string, n: nat)
    requires n > 1 && Find(last, '|') < |last|
    ensures var x := Find(last, '|'); done + Options(last, n) == (done + [last[..x]]) + Options(last[x + 1..], n - 1)
  {
    var x := Find(last, '|');
    assert Options(last, n) == [last[..x]] + Options(last[x + 1..], n - 1);
  }

  method SplitOptions(text: string) returns (val: seq<string>)
    ensures val == Options(text, MAX_OPTIONS)
  {
    val := SplitUpTo(text, MAX_OPTIONS);
  }

  method SplitUpTo(text: string, max: nat) returns (val: seq<string>)
    requires max > 0
    ensures val == Options(text, max)
  {
    val := [];
    var last, count := text, 1;
    assert [] + Options(text, max) == Options(text, max);
    while count < max
      invariant 1 <= count <= max
      invariant val + Options(last, max + 1 - count) == Options(text, max)
    {
      var x := Find(last, '|');
      if x == |last| {
        break;
      }
      OneOff(val, last, max + 1 - count);
      val, last := val + [last[..x]], last[x + 1..];
      count := count + 1;
    }
    val := val + [last];
  }

  function Barred(options: seq<string>): string
    requires options != []
  {
    if |options| == 1 then options[0] else options[0] + "|" + Barred(options[1..])
  }

  predicate NoBars(options: seq<string>)
  {
    forall i :: 0 <= i < |options| ==> '|' !in options[i]
  }

  /** As many alternatives as there is room for; all beyond that ends up in the last one. */
  function Capped(options: seq<string>, n: nat): seq<string>
    requires options != [] && n > 0
  {
    if |options| <= n then options else options[..n - 1] + [Barred(options[n - 1..])]
  }

  lemma CappedCons(options: seq<string>, n: nat)
    requires |options| > 1 && n > 1
    ensures Capped(options, n) == [options[0]] + Capped(options[1..], n - 1)
  {
    assert options == [options[0]] + options[1..];
    if |options| > n {
      assert options[..n - 1] == [options[0]] + options[1..][..n - 2];
      assert options[n - 1..] == options[1..][n - 2..];
    }
  }

  /** Alternatives joined by bars come apart again, up to the number there is room for. */
  lemma {:induction false} OptionsOfBarred(options: seq<string>, n: nat)
    requires options != [] && NoBars(options) && n > 0
    ensures Options(Barred(options), n) == Capped(options, n)
  {
    if |options| == 1 {
      OneOption(options, n);
    } else if n == 1 {
      RoomForOne(options);
    } else {
      OptionsOfBarred(options[1..], n - 1);
      OneMore(options, n);
    }
  }

  lemma OneMore(options: seq<string>, n: nat)
    requires |options| > 1 && n > 1 && NoBars(options)
    requires Options(Barred(options[1..]), n - 1) == Capped(options[1..], n - 1)
    ensures Options(Barred(options), n) == Capped(options, n)
  {
    var rest := Barred(options[1..]);
    assert Barred(options) == options[0] + "|" + rest;
    OptionsCons(options[0], rest, n);
    CappedCons(options, n);
  }

  lemma OneOption(options: seq<string>, n: nat)
    requires |options| == 1 && NoBars(options) && n > 0
    ensures Options(Barred(options), n) == Capped(options, n)
  {
    FindNone(options[0], '|');
    assert options == [options[0]];
  }

  lemma RoomForOne(options: seq<string>)
    requires |options| > 1
    ensures Options(Barred(options), 1) == Capped(options, 1)
  {
    assert options[..0] == [] && options[0..] == options;
  }

  lemma OptionsCons(first: string, rest: string, n: nat)
    requires '|' !in first && n > 1
    ensures Options(first + "|" + rest, n) == [first] + Options(rest, n - 1)
  {
    var text := first + ['|'] + rest;
    FindIs(first, '|', rest);
    assert text[..|first|] == first && text[|first| + 1..] == rest;
  }

  // ---- one line ----

  /** The product it is for, the name of the variable, whether a match is wanted or not, and the
      alternatives. */
  datatype Requirement = Requirement(prod: Option<string>, name: string, invert: bool, options: seq<string>)

  datatype Line = Ignored | Broken | Required(requirement: Requirement)

  const REJECT: string := "reject "
  const REQUIRE: string := "require "
  const FOR_PRODUCT: string := "require-for-product:"

  function StrippedAll(options: seq<string>): (r: seq<string>)
    ensures |r| == |options|
  {
    if options == [] then [] else [Stripped(options[0])] + StrippedAll(options[1..])
  }

  /** The part from the name on. */
  function ParseBody(prod: Option<string>, invert: bool, body: string): Line
  {
    var x := Find(body, '=');
    if x == |body| then Ignored
    else
      var name, options := Stripped(body[..x]), StrippedAll(Options(body[x + 1..], MAX_OPTIONS));
      Required(Requirement(prod, if name == "board" then "product" else name, invert, options))
  }

  /** How a line begins: the product, whether a match is rejected, and what follows. */
  datatype Head = Head(prod: Option<string>, invert: bool, body: string) | NoBlank

  function HeadOf(line: string): Head
  {
    if REJECT <= line then Head(None, true, line[|REJECT|..])
    else if REQUIRE <= line then Head(None, false, line[|REQUIRE|..])
    else if FOR_PRODUCT <= line then
      var rest := line[|FOR_PRODUCT|..];
      var sp := Find(rest, ' ');
      if sp == |rest| then NoBlank else Head(Some(rest[..sp]), false, rest[sp + 1..])
    else Head(None, false, line)
  }

  function ParseLine(line: string): Line
  {
    match HeadOf(line)
    case NoBlank => Broken
    case Head(prod, invert, body) => ParseBody(prod, invert, body)
  }

  method StripAll(options: seq<string>) returns (val: seq<string>)
    ensures val == StrippedAll(options)
  {
    val := options;
    var n := 0;
    while n < |val|
      invariant n <= |val| == |options| && val[n..] == options[n..]
      invariant val[..n] + StrippedAll(options[n..]) == StrippedAll(options)
    {
      var stripped := Strip(val[n]);
      ghost var later := StrippedAll(options[n + 1..]);
      assert options[n..][0] == val[n] && options[n..][1..] == options[n + 1..];
      assert val[..n] + ([stripped] + later) == (val[..n] + [stripped]) + later;
      val := val[n := stripped];
      n := n + 1;
    }
    assert val[..n] == val;
  }

  method SetupBody(prod: Option<string>, invert: bool, body: string) returns (r: Line)
    ensures r == ParseBody(prod, invert, body)
  {
    var x := Find(body, '=');
    if x == |body| {
      return Ignored;
    }
    var val := SplitOptions(body[x + 1..]);
    var name := Strip(body[..x]);
    val := StripAll(val);
    return Required(Requirement(prod, if name == "board" then "product" else name, invert, val));
  }

  /** setup_requirement_line */
  method SetupLine(line: string) returns (r: Line)
    ensures r == ParseLine(line)
  {
    match HeadOf(line) {
      case NoBlank =>
        r := Broken;
      case Head(prod, invert, body) =>
        r := SetupBody(prod, invert, body);
    }
  }

  // ---- writing a line ----

  predicate Writable(r: Requirement)
  {
    && (r.prod.Some? ==> ' ' !in r.prod.value && !r.invert)
    && Trim(r.name) && '=' !in r.name && r.name != "board"
    && 0 < |r.options| <= MAX_OPTIONS && NoBars(r.options)
    && forall i :: 0 <= i < |r.options| ==> Trim(r.options[i])
  }

  function WriteBody(r: Requirement): string
    requires r.options != []
  {
    r.name + "=" + Barred(r.options)
  }

  /** What a line begins with. */
  function HeadText(prod: Option<string>, invert: bool): string
  {
    if prod.Some? then FOR_PRODUCT + prod.value + " " else if invert then REJECT else REQUIRE
  }

  function WriteLine(r: Requirement): string
    requires r.options != []
  {
    HeadText(r.prod, r.invert) + WriteBody(r)
  }

  lemma {:induction false} StrippedTrim(options: seq<string>)
    requires forall i :: 0 <= i < |options| ==> Trim(options[i])
    ensures StrippedAll(options) == options
  {
    if options != [] {
      TrimStays(options[0]);
      StrippedTrim(options[1..]);
    }
  }

  lemma ParseNamed(prod: Option<string>, name: string, invert: bool, options: seq<string>)
    requires Trim(name) && '=' !in name && 0 < |options| <= MAX_OPTIONS && NoBars(options)
    requires forall i :: 0 <= i < |options| ==> Trim(options[i])
    ensures ParseBody(prod, invert, name + "=" + Barred(options))
            == Required(Requirement(prod, if name == "board" then "product" else name, invert, options))
  {
    BodyApart(name, Barred(options));
    TrimStays(name);
    OptionsBack(options, MAX_OPTIONS);
  }

  lemma BodyApart(name: string, rest: string)
    requires '=' !in name
    ensures var body := name + "=" + rest;
            Find(body, '=') == |name| && body[..|name|] == name && body[|name| + 1..] == rest
  {
    FindIs(name, '=', rest);
  }

  lemma OptionsBack(options: seq<string>, n: nat)
    requires 0 < |options| <= n && NoBars(options) && forall i :: 0 <= i < |options| ==> Trim(options[i])
    ensures StrippedAll(Options(Barred(options), n)) == options
  {
    OptionsOfBarred(options, n);
    StrippedTrim(options);
  }

  lemma ParseWrittenBody(r: Requirement)
    requires Writable(r)
    ensures ParseBody(r.prod, r.invert, WriteBody(r)) == Required(r)
  {
    ParseNamed(r.prod, r.name, r.invert, r.options);
  }

  /** The three ways a line can begin exclude each other. */
  lemma Heads(rest: string)
    ensures !(REJECT <= REQUIRE + rest) && !(REJECT <= FOR_PRODUCT + rest) && !(REQUIRE <= FOR_PRODUCT + rest)
    ensures (REQUIRE + rest)[|REQUIRE|..] == rest && (FOR_PRODUCT + rest)[|FOR_PRODUCT|..] == rest
  {
    assert (REQUIRE + rest)[2] == REQUIRE[2] == 'q';
    assert (FOR_PRODUCT + rest)[2] == FOR_PRODUCT[2] == 'q';
    assert (FOR_PRODUCT + rest)[7] == FOR_PRODUCT[7] == '-';
  }

  lemma HeadForProduct(prod: string, body: string)
    requires ' ' !in prod
    ensures HeadOf(FOR_PRODUCT + prod + " " + body) == Head(Some(prod), false, body)
  {
    var rest := prod + [' '] + body;
    Heads(rest);
    assert FOR_PRODUCT + prod + " " + body == FOR_PRODUCT + rest;
    FindIs(prod, ' ', body);
    assert rest[..|prod|] == prod && rest[|prod| + 1..] == body;
  }

  /** What a line begins with is read back, whatever follows. */
  lemma HeadRead(prod: Option<string>, invert: bool, body: string)
    requires prod.Some? ==> ' ' !in prod.value && !invert
    ensures HeadOf(HeadText(prod, invert) + body) == Head(prod, invert, body)
  {
    if prod.Some? {
      HeadForProduct(prod.value, body);
    } else if invert {
      assert (REJECT + body)[|REJECT|..] == body;
    } else {
      Heads(body);
    }
  }

  /** Every requirement is read back from the line that states it. */
  lemma ParseWritten(r: Requirement)
    requires Writable(r)
    ensures ParseLine(WriteLine(r)) == Required(r)
  {
    ParseWrittenBody(r);
    HeadRead(r.prod, r.invert, WriteBody(r));
  }

  /** A line that begins in none of the three ways is a requirement for every product. */
  lemma ParsePlain(r: Requirement)
    requires Writable(r) && r.prod.None? && !r.invert
    requires !(REJECT <= WriteBody(r)) && !(REQUIRE <= WriteBody(r)) && !(FOR_PRODUCT <= WriteBody(r))
    ensures ParseLine(WriteBody(r)) == Required(r)
  {
    ParseWrittenBody(r);
  }

  lemma ParseLineNamed(prod: Option<string>, name: string, invert: bool, options: seq<string>)
    requires prod.Some? ==> ' ' !in prod.value && !invert
    requires Trim(name) && '=' !in name && 0 < |options| <= MAX_OPTIONS && NoBars(options)
    requires forall i :: 0 <= i < |options| ==> Trim(options[i])
    ensures ParseLine(HeadText(prod, invert) + (name + "=" + Barred(options)))
            == Required(Requirement(prod, if name == "board" then "product" else name, invert, options))
  {
    ParseNamed(prod, name, invert, options);
    HeadRead(prod, invert, name + "=" + Barred(options));
  }

  /** The board of a device is its product. */
  lemma ParseBoard(r: Requirement)
    requires Writable(r) && r.name == "product"
    ensures ParseLine(HeadText(r.prod, r.invert) + ("board" + "=" + Barred(r.options))) == Required(r)
  {
    ParseLineNamed(r.prod, "board", r.invert, r.options);
  }

  /** A line without an equals sign requires nothing; one that names a product and has no blank behind
      it stops the update. */
  lemma NothingRequired(prod: Option<string>, invert: bool, body: string)
    requires prod.Some? ==> ' ' !in prod.value && !invert
    ensures '=' !in body ==> ParseLine(HeadText(prod, invert) + body) == Ignored
    ensures ' ' !in body ==> ParseLine(FOR_PRODUCT + body) == Broken
  {
    HeadRead(prod, invert, body);
    Heads(body);
    if '=' !in body {
      FindNone(body, '=');
    }
    if ' ' !in body {
      FindNone(body, ' ');
    }
  }
}
