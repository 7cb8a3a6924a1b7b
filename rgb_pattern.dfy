/** The colour-channel pattern used by the star field's glow and flare code:
      /rgba?\((\d+),\s*(\d+),\s*(\d+)(?:,\s*([\d.]+))?\)/
    matched with JavaScript's `String.prototype.match` (no flags: unanchored, the
    leftmost match wins), followed by `parseInt` of the three captured channels.

    At any one start position the pattern has at most one way to match: every
    greedy quantifier is followed by a character its class does not contain, so
    backtracking into it can never succeed. The anchored matcher below therefore
    takes each greedy run in full, working on the rest of the string after each
    step, and the unanchored search tries the start positions from left to right. */
module RgbPattern {

  datatype Option<T> = None | Some(value: T)

  /** The three integer channels captured by groups 1 to 3, after `parseInt`. */
  datatype Channels = Channels(r: nat, g: nat, b: nat)

  /** The character classes of the pattern: `\d`, `\s` and `[\d.]`. */
  datatype CharClass = Digit | Space | DigitOrDot

  predicate IsDigit(c: char) {
    '0' <= c <= '9'
  }

  /** JavaScript's `\s`: the WhiteSpace and LineTerminator code points. */
  predicate IsSpace(c: char) {
    c == '\t' || c == '\n' || c == '\U{B}' || c == '\U{C}' || c == '\r' || c == ' '
    || c == '\U{A0}' || c == '\U{1680}' || ('\U{2000}' <= c <= '\U{200A}')
    || c == '\U{2028}' || c == '\U{2029}' || c == '\U{202F}' || c == '\U{205F}'
    || c == '\U{3000}' || c == '\U{FEFF}'
  }

  predicate InClass(c: char, k: CharClass) {
    match k
    case Digit => IsDigit(c)
    case Space => IsSpace(c)
    case DigitOrDot => IsDigit(c) || c == '.'
  }

  predicate AllIn(s: string, k: CharClass) {
    forall j :: 0 <= j < |s| ==> InClass(s[j], k)
  }

  /** The number of characters a greedy `k*` consumes at the head of s: the run
      of class-k characters there, which ends at the end of s or at a character
      outside the class. */
  function Lead(s: string, k: CharClass): (n: nat)
    ensures n <= |s|
    ensures n == |s| || !InClass(s[n], k)
  {
    if |s| > 0 && InClass(s[0], k) then 1 + Lead(s[1..], k) else 0
  }

  /** Every character of a greedy run is in its class. */
  lemma {:induction false} LeadInClass(s: string, k: CharClass)
    ensures AllIn(s[..Lead(s, k)], k)
  {
    if |s| > 0 && InClass(s[0], k) {
      LeadInClass(s[1..], k);
      assert s[..Lead(s, k)] == [s[0]] + s[1..][..Lead(s[1..], k)];
    }
  }

  /** What follows a greedy `\s*` at the head of s. */
  function SkipSpaces(s: string): (t: string)
    ensures |t| <= |s|
    ensures |t| == 0 || !IsSpace(t[0])
  {
    s[Lead(s, Space)..]
  }

  predicate StartsWith(s: string, c: char) {
    |s| > 0 && s[0] == c
  }

  function DigitValue(c: char): (v: nat)
    requires IsDigit(c)
    ensures v < 10
  {
    (c as int) - ('0' as int)
  }

  /** `parseInt` of a string of decimal digits: its base-10 value. */
  function DecimalValue(ds: string): nat
    requires AllIn(ds, Digit)
  {
    if |ds| == 0 then 0 else 10 * DecimalValue(ds[..|ds| - 1]) + DigitValue(ds[|ds| - 1])
  }

  /** A capturing group `(\d+)` at the head of s: the value `parseInt` reads
      from it and the rest of s after it, which does not start with a digit. */
  function Group(s: string): (g: Option<(nat, string)>)
    ensures g.Some? ==> |g.value.1| < |s|
    ensures g.Some? ==> |g.value.1| == 0 || !IsDigit(g.value.1[0])
  {
    var n := Lead(s, Digit);
    if n == 0 then None
    else
      LeadInClass(s, Digit);
      Some((DecimalValue(s[..n]), s[n..]))
  }

  /** `([\d.]+)\)` at the head of s. */
  predicate AlphaThenClose(s: string) {
    var m := Lead(s, DigitOrDot);
    m > 0 && m < |s| && s[m] == ')'
  }

  /** What the pattern demands after the third group: `(?:,\s*([\d.]+))?\)`. */
  predicate Closes(s: string) {
    StartsWith(s, ')') || (StartsWith(s, ',') && AlphaThenClose(SkipSpaces(s[1..])))
  }

  /** The pattern anchored at the head of s. */
  function MatchAt(s: string): Option<Channels> {
    if |s| >= 3 && s[0] == 'r' && s[1] == 'g' && s[2] == 'b' then AfterRgb(s[3..]) else None
  }

  /** `a?\(` and the channel list, after `rgb`. */
  function AfterRgb(t: string): Option<Channels> {
    // `a?` is greedy; giving the `a` back leaves `a` where `(` is needed
    var u := if StartsWith(t, 'a') then t[1..] else t;
    if StartsWith(u, '(') then ChannelList(u[1..]) else None
  }

  /** `(\d+),\s*` and the rest of the list, after the opening parenthesis. */
  function ChannelList(u: string): Option<Channels> {
    var red := Group(u);
    if red.None? || !StartsWith(red.value.1, ',') then None
    else GreenAndBlue(red.value.0, SkipSpaces(red.value.1[1..]))
  }

  /** `(\d+),\s*` and the last group, once red has been read. */
  function GreenAndBlue(r: nat, u: string): Option<Channels> {
    var green := Group(u);
    if green.None? || !StartsWith(green.value.1, ',') then None
    else Blue(r, green.value.0, SkipSpaces(green.value.1[1..]))
  }

  /** `(\d+)` and the end of the pattern, once red and green have been read. */
  function Blue(r: nat, g: nat, u: string): Option<Channels> {
    var blue := Group(u);
    if blue.None? || !Closes(blue.value.1) then None
    else Some(Channels(r, g, blue.value.0))
  }

  /** The unanchored search from position p: the leftmost start position at
      which `matches` holds of the rest of s, if there is one. */
  function Leftmost(s: string, p: nat, matches: string -> bool): (k: Option<nat>)
    requires p <= |s|
    decreases |s| - p
    ensures k.Some? ==> p <= k.value <= |s| && matches(s[k.value..])
    ensures k.Some? ==> forall j :: p <= j < k.value ==> !matches(s[j..])
    ensures k.None? ==> forall j :: p <= j <= |s| ==> !matches(s[j..])
  {
    if matches(s[p..]) then Some(p)
    else if p < |s| then Leftmost(s, p + 1, matches)
    else None
  }

  /** `color.match(pattern)` followed by `parseInt` of groups 1 to 3; `None`
      when the string does not match anywhere. */
  function Extract(color: string): Option<Channels> {
    var k := Leftmost(color, 0, u => MatchAt(u).Some?);
    if k.None? then None else MatchAt(color[k.value..])
  }

  // ---------------------------------------------------------------------------
  // Colour text, with any run of white space after each comma

  function DigitChar(d: nat): (c: char)
    requires d < 10
    ensures IsDigit(c) && DigitValue(c) == d
  {
    ('0' as int + d) as char
  }

  /** The decimal notation of n, without leading zeros. */
  function Decimal(n: nat): (ds: string)
    decreases n
    ensures |ds| > 0 && AllIn(ds, Digit)
  {
    if n < 10 then [DigitChar(n)] else Decimal(n / 10) + [DigitChar(n % 10)]
  }

  /** The white space written after the first, second and third comma of a
      colour (the third only in the `rgba` form). */
  datatype Spacing = Spacing(afterRed: string, afterGreen: string, afterBlue: string)

  /** Every separator is a run of `\s` characters, possibly empty. */
  predicate SpacesOnly(sp: Spacing) {
    AllIn(sp.afterRed, Space) && AllIn(sp.afterGreen, Space) && AllIn(sp.afterBlue, Space)
  }

  /** One space after each comma, as the palette writes its colours. */
  const OneSpace: Spacing := Spacing(" ", " ", " ")

  /** The channel list `r,<sp>g,<sp>b` followed by `tail`. */
  function ListText(c: Channels, sp: Spacing, tail: string): string {
    Decimal(c.r) + ("," + (sp.afterRed + (Decimal(c.g) + ("," + (sp.afterGreen + (Decimal(c.b) + tail))))))
  }

  /** The text `rgba(r,<sp>g,<sp>b,<sp>alpha)`. */
  function RgbaText(c: Channels, sp: Spacing, alpha: string): string {
    "rgb" + ("a(" + ListText(c, sp, "," + (sp.afterBlue + (alpha + ")"))))
  }

  /** The text `rgb(r,<sp>g,<sp>b)`. */
  function RgbText(c: Channels, sp: Spacing): string {
    "rgb" + ("(" + ListText(c, sp, ")"))
  }

  // ---------------------------------------------------------------------------
  // Lemmas

  /** `parseInt` reads back the number that `Decimal` wrote. */
  lemma {:induction false} DecimalRoundTrip(n: nat)
    ensures DecimalValue(Decimal(n)) == n
  {
    if n >= 10 {
      var ds := Decimal(n);
      assert ds[..|ds| - 1] == Decimal(n / 10);
      DecimalRoundTrip(n / 10);
    }
  }

  /** `parseInt` ignores a leading zero: `007` reads as 7. */
  lemma {:induction false} LeadingZeroIgnored(ds: string)
    requires AllIn(ds, Digit)
    ensures DecimalValue("0" + ds) == DecimalValue(ds)
  {
    if ds != [] {
      var zs := "0" + ds;
      assert zs[..|zs| - 1] == "0" + ds[..|ds| - 1];
      assert zs[|zs| - 1] == ds[|ds| - 1];
      LeadingZeroIgnored(ds[..|ds| - 1]);
    } else {
      assert ("0" + ds)[..0] == [];
    }
  }

  /** A greedy `k*` consumes exactly a class-k block that is followed by the end
      of the string or by a character outside the class. */
  lemma {:induction false} LeadOfBlock(ds: string, rest: string, k: CharClass)
    requires AllIn(ds, k)
    requires rest == [] || !InClass(rest[0], k)
    ensures Lead(ds + rest, k) == |ds|
  {
    if ds != [] {
      assert (ds + rest)[1..] == ds[1..] + rest;
      LeadOfBlock(ds[1..], rest, k);
    } else {
      assert ds + rest == rest;
    }
  }

  /** A written channel followed by a non-digit is read back as the number
      written, leaving what follows it. */
  lemma GroupOfDecimal(v: nat, rest: string)
    requires rest == [] || !IsDigit(rest[0])
    ensures Group(Decimal(v) + rest) == Some((v, rest))
  {
    var ds := Decimal(v);
    LeadOfBlock(ds, rest, Digit);
    assert (ds + rest)[..|ds|] == ds;
    assert (ds + rest)[|ds|..] == rest;
    DecimalRoundTrip(v);
  }

  /** `Extract` reports no match exactly when the pattern matches at no start
      position, and otherwise the match at the leftmost one. */
  lemma ExtractIsLeftmost(color: string)
    ensures Extract(color).None? <==> forall k :: 0 <= k <= |color| ==> MatchAt(color[k..]).None?
    ensures forall k :: 0 <= k <= |color| && MatchAt(color[k..]).Some? &&
                        (forall j :: 0 <= j < k ==> MatchAt(color[j..]).None?)
                        ==> Extract(color) == MatchAt(color[k..])
  {
    var matches := u => MatchAt(u).Some?;
    var first := Leftmost(color, 0, matches);
    forall j | 0 <= j <= |color| ensures matches(color[j..]) == MatchAt(color[j..]).Some? {
    }
    if first.Some? {
      var f := first.value;
      forall k | 0 <= k <= |color| && MatchAt(color[k..]).Some? &&
                 (forall j :: 0 <= j < k ==> MatchAt(color[j..]).None?)
        ensures k == f
      {
        assert matches(color[f..]);
      }
    }
  }

  /** The search skips a prefix without `r`, where the pattern cannot start,
      and returns the match of what follows it. */
  lemma ExtractAfterPrefix(p: string, s: string)
    requires 'r' !in p && MatchAt(s).Some?
    ensures Extract(p + s) == MatchAt(s)
  {
    var t := p + s;
    forall k | 0 <= k < |p| ensures MatchAt(t[k..]).None? {
      assert t[k..][0] == p[k];
    }
    assert t[|p|..] == s;
    ExtractIsLeftmost(t);
  }

  /** A comma and a run of white space before a channel: the pattern's
      `,\s*` consumes all of it. */
  lemma CommaSpaces(sp: string, x: string)
    requires AllIn(sp, Space) && x != [] && IsDigit(x[0])
    ensures StartsWith("," + (sp + x), ',')
    ensures SkipSpaces(("," + (sp + x))[1..]) == x
  {
    assert ("," + (sp + x))[1..] == sp + x;
    LeadOfBlock(sp, x, Space);
    assert (sp + x)[|sp|..] == x;
  }

  /** The last group and the end of the pattern, as written. */
  lemma BlueOfDecimal(r: nat, g: nat, b: nat, tail: string)
    requires Closes(tail)
    ensures Blue(r, g, Decimal(b) + tail) == Some(Channels(r, g, b))
  {
    GroupOfDecimal(b, tail);
  }

  /** The green group, a comma, white space and the rest, as written. */
  lemma GreenOfDecimal(r: nat, g: nat, b: nat, sp: string, tail: string)
    requires AllIn(sp, Space) && Closes(tail)
    ensures GreenAndBlue(r, Decimal(g) + ("," + (sp + (Decimal(b) + tail)))) == Some(Channels(r, g, b))
  {
    assert (Decimal(b) + tail)[0] == Decimal(b)[0];
    CommaSpaces(sp, Decimal(b) + tail);
    GroupOfDecimal(g, "," + (sp + (Decimal(b) + tail)));
    BlueOfDecimal(r, g, b, tail);
  }

  /** A written channel list is read back whole, whatever white space follows
      its commas and whatever closes it. */
  lemma ListOfDecimals(c: Channels, sp: Spacing, tail: string)
    requires SpacesOnly(sp) && Closes(tail)
    ensures ChannelList(ListText(c, sp, tail)) == Some(c)
  {
    var green := Decimal(c.g) + ("," + (sp.afterGreen + (Decimal(c.b) + tail)));
    assert green[0] == Decimal(c.g)[0];
    CommaSpaces(sp.afterRed, green);
    GroupOfDecimal(c.r, "," + (sp.afterRed + green));
    GreenOfDecimal(c.r, c.g, c.b, sp.afterGreen, tail);
  }

  /** The optional alpha group `,\s*([\d.]+)` and the closing parenthesis,
      after any white space. */
  lemma AlphaCloses(sp: string, alpha: string)
    requires AllIn(sp, Space) && |alpha| > 0 && AllIn(alpha, DigitOrDot)
    ensures Closes("," + (sp + (alpha + ")")))
  {
    var s := "," + (sp + (alpha + ")"));
    assert s[1..] == sp + (alpha + ")");
    assert InClass(alpha[0], DigitOrDot);
    LeadOfBlock(sp, alpha + ")", Space);
    assert (sp + (alpha + ")"))[|sp|..] == alpha + ")";
    LeadOfBlock(alpha, ")", DigitOrDot);
  }

  /** After `rgb`, `(` followed by a channel list reads as the list alone. */
  lemma OpeningParen(list: string)
    ensures AfterRgb("(" + list) == ChannelList(list)
  {
    assert ("(" + list)[1..] == list;
  }

  /** So does `a(` followed by a channel list: `a?` takes the `a`. */
  lemma OpeningAParen(list: string)
    ensures AfterRgb("a(" + list) == ChannelList(list)
  {
    var u := ("a(" + list)[1..];
    assert u == "(" + list;
    assert StartsWith(u, '(') && u[1..] == list;
  }

  /** `rgb` followed by a completing rest matches at the head. */
  lemma RgbPrefix(rest: string, c: Channels)
    requires AfterRgb(rest) == Some(c)
    ensures MatchAt("rgb" + rest) == Some(c)
  {
    assert ("rgb" + rest)[3..] == rest;
  }

  /** Every `rgba(r, g, b, alpha)` text with a digits-and-dots alpha and any
      white space after its commas yields its three channels, also after a
      prefix the pattern cannot start in. */
  lemma RgbaTextMatches(p: string, c: Channels, sp: Spacing, alpha: string)
    requires 'r' !in p && SpacesOnly(sp)
    requires |alpha| > 0 && AllIn(alpha, DigitOrDot)
    ensures Extract(p + RgbaText(c, sp, alpha)) == Some(c)
  {
    var tail := "," + (sp.afterBlue + (alpha + ")"));
    AlphaCloses(sp.afterBlue, alpha);
    ListOfDecimals(c, sp, tail);
    OpeningAParen(ListText(c, sp, tail));
    RgbPrefix("a(" + ListText(c, sp, tail), c);
    ExtractAfterPrefix(p, RgbaText(c, sp, alpha));
  }

  /** Every `rgb(r, g, b)` text, with any white space after its commas, yields
      its three channels, also after a prefix the pattern cannot start in. */
  lemma RgbTextMatches(p: string, c: Channels, sp: Spacing)
    requires 'r' !in p && SpacesOnly(sp)
    ensures Extract(p + RgbText(c, sp)) == Some(c)
  {
    ListOfDecimals(c, sp, ")");
    OpeningParen(ListText(c, sp, ")"));
    RgbPrefix("(" + ListText(c, sp, ")"), c);
    ExtractAfterPrefix(p, RgbText(c, sp));
  }

  /** Every suffix of a string without `)` is without `)`. */
  lemma NoParenInSuffix(s: string, i: nat)
    requires i <= |s| && ')' !in s
    ensures ')' !in s[i..]
  {
  }

  /** The end of the pattern needs a `)`. */
  lemma NoParenNoClose(u: string)
    requires ')' !in u
    ensures !Closes(u)
  {
    if StartsWith(u, ',') {
      NoParenInSuffix(u, 1);
      var a := SkipSpaces(u[1..]);
      NoParenInSuffix(u[1..], Lead(u[1..], Space));
      var m := Lead(a, DigitOrDot);
      if m < |a| {
        assert a[m] in a;
      }
    }
  }

  /** What follows a group or a run of spaces in a string without `)` has no
      `)` either. */
  lemma NoParenAfterGroup(u: string)
    requires ')' !in u && Group(u).Some? && StartsWith(Group(u).value.1, ',')
    ensures ')' !in SkipSpaces(Group(u).value.1[1..])
  {
    var n := Lead(u, Digit);
    NoParenInSuffix(u, n);
    NoParenInSuffix(u[n..], 1);
    NoParenInSuffix(u[n..][1..], Lead(u[n..][1..], Space));
  }

  /** Without a `)` the channel list after `(` never closes. */
  lemma NoParenNoList(list: string)
    requires ')' !in list
    ensures ChannelList(list).None?
  {
    if Group(list).Some? && StartsWith(Group(list).value.1, ',') {
      var green := SkipSpaces(Group(list).value.1[1..]);
      NoParenAfterGroup(list);
      if Group(green).Some? && StartsWith(Group(green).value.1, ',') {
        var blue := SkipSpaces(Group(green).value.1[1..]);
        NoParenAfterGroup(green);
        if Group(blue).Some? {
          NoParenInSuffix(blue, Lead(blue, Digit));
          NoParenNoClose(Group(blue).value.1);
        }
      }
    }
  }

  /** Without a `)` the pattern cannot match at the head of s. */
  lemma NoParenNoMatchAt(s: string)
    requires ')' !in s
    ensures MatchAt(s).None?
  {
    if |s| >= 3 && s[0] == 'r' && s[1] == 'g' && s[2] == 'b' {
      var t := s[3..];
      NoParenInSuffix(s, 3);
      var u := if StartsWith(t, 'a') then t[1..] else t;
      NoParenInSuffix(t, if StartsWith(t, 'a') then 1 else 0);
      if StartsWith(u, '(') {
        NoParenInSuffix(u, 1);
        NoParenNoList(u[1..]);
      }
    }
  }

  /** Without a closing parenthesis the pattern matches nowhere, which is when
      the glow and flare code falls back to white. */
  lemma NoParenNoMatch(s: string)
    requires ')' !in s
    ensures Extract(s) == None
  {
    forall k | 0 <= k <= |s| ensures MatchAt(s[k..]).None? {
      NoParenInSuffix(s, k);
      NoParenNoMatchAt(s[k..]);
    }
    ExtractIsLeftmost(s);
  }

  /** A channel list whose first group is followed by a space does not match:
      the pattern allows no space before a comma. */
  lemma SpaceAfterRedNoList(list: string)
    requires Lead(list, Digit) < |list| && list[Lead(list, Digit)] == ' '
    ensures ChannelList(list).None?
  {
  }

  /** No position of s holds an `r` except its first, so the pattern can
      only match at the head. */
  lemma OnlyHeadIsR(s: string)
    requires forall k :: 1 <= k < |s| ==> s[k] != 'r'
    ensures forall k :: 1 <= k <= |s| ==> MatchAt(s[k..]).None?
  {
    forall k | 1 <= k <= |s| ensures MatchAt(s[k..]).None? {
      assert k == |s| || s[k..][0] == s[k];
    }
  }

  /** A colour with a space between its first channel and the comma matches
      nowhere. */
  lemma SpaceBeforeCommaNoMatch(ds: string, rest: string)
    requires |ds| > 0 && AllIn(ds, Digit)
    requires StartsWith(rest, ' ') && 'r' !in rest
    ensures Extract("rgba(" + (ds + rest)) == None
  {
    var s := "rgba(" + (ds + rest);
    LeadOfBlock(ds, rest, Digit);
    assert s[5..] == ds + rest;
    SpaceAfterRedNoList(ds + rest);
    assert MatchAt(s).None?;
    forall k | 1 <= k < |s| ensures s[k] != 'r' {
      if 5 + |ds| <= k {
        assert s[k] == rest[k - 5 - |ds|];
      } else if 5 <= k {
        assert s[k] == ds[k - 5];
      }
    }
    OnlyHeadIsR(s);
    ExtractIsLeftmost(s);
  }

  /** The first palette white written with a space before its first comma
      matches nowhere. */
  lemma SpaceBeforeCommaDoesNotMatch()
    ensures Extract("rgba(255 , 255, 255, 0.9)") == None
  {
    var rest := " , 255, 255, 0.9)";
    assert "rgba(255 , 255, 255, 0.9)" == "rgba(" + ("255" + rest);
    SpaceBeforeCommaNoMatch("255", rest);
  }

  /** A colour after a prefix without `r`, with a tab after its first comma,
      two spaces after the second and none after the third, yields its
      channels. */
  lemma SpacedColourMatches()
    ensures Extract("fill: rgba(1,\t2,  3,0.5)") == Some(Channels(1, 2, 3))
  {
    SpacedColourText();
    RgbaTextMatches("fill: ", Channels(1, 2, 3), Spacing("\t", "  ", ""), "0.5");
  }

  /** The example colour, as text built from its parts. */
  lemma SpacedColourText()
    ensures "fill: rgba(1,\t2,  3,0.5)" == "fill: " + RgbaText(Channels(1, 2, 3), Spacing("\t", "  ", ""), "0.5")
  {
    assert Decimal(1) == "1" && Decimal(2) == "2" && Decimal(3) == "3";
  }
}
