/** The interaction report for one function: a summary line with both counts
    and correct plurals, then a "Stubbings:" section when the function has
    stubbings and an "Invocations:" section when it was invoked. */
module Report {
  import opened Values
  import opened StubRegistry
  import opened InvocationLog

  predicate IsDigit(c: char)
  {
    '0' <= c <= '9'
  }

  predicate AllDigits(s: string)
  {
    forall i :: 0 <= i < |s| ==> IsDigit(s[i])
  }

  predicate StartsWith(s: string, prefix: string)
  {
    |prefix| <= |s| && s[..|prefix|] == prefix
  }

  function DigitChar(d: nat): (c: char)
    requires d < 10
    ensures IsDigit(c)
  {
    ('0' as int + d) as char
  }

  function DigitValue(c: char): (d: nat)
    requires IsDigit(c)
    ensures d < 10
  {
    c as int - '0' as int
  }

  /** The decimal rendering of a count, as string interpolation of an `Int`
      gives it: digits only, at least one, and no leading zero. */
  function Decimal(n: nat): (s: string)
    ensures |s| >= 1 && AllDigits(s)
    ensures s[0] == '0' ==> n == 0
    decreases n
  {
    if n < 10 then [DigitChar(n)] else Decimal(n / 10) + [DigitChar(n % 10)]
  }

  /** The value of a string of decimal digits; the inverse of `Decimal`. */
  function ParseDecimal(s: string): nat
    requires AllDigits(s)
  {
    if |s| == 0 then 0 else ParseDecimal(s[..|s| - 1]) * 10 + DigitValue(s[|s| - 1])
  }

  lemma {:induction false} DecimalRoundTrip(n: nat)
    ensures ParseDecimal(Decimal(n)) == n
    decreases n
  {
    if n >= 10 {
      var s := Decimal(n);
      assert s[..|s| - 1] == Decimal(n / 10);
      DecimalRoundTrip(n / 10);
    }
  }

  /** Distinct counts render differently. */
  lemma DecimalInjective(n: nat, m: nat)
    requires Decimal(n) == Decimal(m)
    ensures n == m
  {
    DecimalRoundTrip(n);
    DecimalRoundTrip(m);
  }

  function Plural(n: nat): string
  {
    if n == 1 then "" else "s"
  }

  const IntroHead := "This function has "

  /** "\(n) <noun>\(n == 1 ? "" : "s")" */
  function CountPhrase(n: nat, noun: string): string
  {
    Decimal(n) + " " + noun + Plural(n)
  }

  /** `getDescriptionIntro` */
  function Intro(stubbings: nat, invocations: nat): (s: string)
    ensures StartsWith(s, IntroHead) && s[|s| - 1] == '.'
  {
    IntroHead + CountPhrase(stubbings, "stubbing") + " and " + CountPhrase(invocations, "invocation") + "."
  }

  /** The number of leading digits of `s`. */
  function LeadingDigits(s: string): (n: nat)
    ensures n <= |s| && AllDigits(s[..n])
    ensures n < |s| ==> !IsDigit(s[n])
  {
    if |s| == 0 || !IsDigit(s[0]) then 0 else 1 + LeadingDigits(s[1..])
  }

  /** Reads "<count> <noun>" or "<count> <noun>s" off the front of `s`:
      the count, whether the plural `s` was there, and what follows. */
  function ParseCountPhrase(s: string, noun: string): Option<(nat, bool, string)>
  {
    var d := LeadingDigits(s);
    var rest := s[d..];
    if d == 0 || !StartsWith(rest, " " + noun) then None
    else
      var after := rest[|noun| + 1..];
      if StartsWith(after, "s") then Some((ParseDecimal(s[..d]), true, after[1..]))
      else Some((ParseDecimal(s[..d]), false, after))
  }

  /** A reader for summary lines, independent of `Intro`: it accepts a line
      only when each noun is plural exactly when its count is not 1, and
      gives back both counts. */
  function ParseIntro(s: string): Option<(nat, nat)>
  {
    if !StartsWith(s, IntroHead) then None
    else match ParseCountPhrase(s[|IntroHead|..], "stubbing")
      case None => None
      case Some((n, pluralN, rest)) =>
        if !StartsWith(rest, " and ") then None
        else match ParseCountPhrase(rest[5..], "invocation")
          case None => None
          case Some((m, pluralM, tail)) =>
            if tail == "." && pluralN == (n != 1) && pluralM == (m != 1) then Some((n, m)) else None
  }

  lemma {:induction false} LeadingDigitsOf(digits: string, rest: string)
    requires AllDigits(digits)
    requires |rest| > 0 && !IsDigit(rest[0])
    ensures LeadingDigits(digits + rest) == |digits|
    decreases |digits|
  {
    if |digits| > 0 {
      assert (digits + rest)[1..] == digits[1..] + rest;
      LeadingDigitsOf(digits[1..], rest);
    } else {
      assert digits + rest == rest;
    }
  }

  lemma ParseCountPhraseOf(digits: string, noun: string, afterNoun: string)
    requires |digits| > 0 && AllDigits(digits)
    ensures ParseCountPhrase(digits + (" " + noun + afterNoun), noun) ==
      if StartsWith(afterNoun, "s") then Some((ParseDecimal(digits), true, afterNoun[1..]))
      else Some((ParseDecimal(digits), false, afterNoun))
  {
    var afterDigits := " " + noun + afterNoun;
    var s := digits + afterDigits;
    LeadingDigitsOf(digits, afterDigits);
    assert s[..|digits|] == digits;
    assert s[|digits|..] == afterDigits;
    assert afterDigits[..|noun| + 1] == " " + noun;
    assert afterDigits[|noun| + 1..] == afterNoun;
  }

  /** The plural `s`, when present, is recognised and stripped again. */
  lemma PluralThen(n: nat, rest: string)
    requires |rest| > 0 && rest[0] != 's'
    ensures StartsWith(Plural(n) + rest, "s") == (n != 1)
    ensures n != 1 ==> (Plural(n) + rest)[1..] == rest
    ensures n == 1 ==> Plural(n) + rest == rest
  {
    if n == 1 {
      assert Plural(n) + rest == rest;
    } else {
      assert (Plural(n) + rest)[..1] == "s";
      assert (Plural(n) + rest)[1..] == rest;
    }
  }

  lemma CountPhraseAssociates(n: nat, noun: string, rest: string)
    ensures CountPhrase(n, noun) + rest == Decimal(n) + (" " + noun + (Plural(n) + rest))
  {
  }

  lemma CountPhraseRoundTrip(n: nat, noun: string, rest: string)
    requires |rest| > 0 && rest[0] != 's' && !IsDigit(rest[0])
    ensures ParseCountPhrase(CountPhrase(n, noun) + rest, noun) == Some((n, n != 1, rest))
  {
    CountPhraseAssociates(n, noun, rest);
    ParseCountPhraseOf(Decimal(n), noun, Plural(n) + rest);
    DecimalRoundTrip(n);
    PluralThen(n, rest);
  }

  /** The summary line gives back both counts, and its plurals are right:
      `ParseIntro` is a left inverse of `Intro`. */
  lemma IntroRoundTrip(stubbings: nat, invocations: nat)
    ensures ParseIntro(Intro(stubbings, invocations)) == Some((stubbings, invocations))
  {
    var part2 := CountPhrase(invocations, "invocation") + ".";
    var tail1 := " and " + part2;
    var part1 := CountPhrase(stubbings, "stubbing") + tail1;
    var s := Intro(stubbings, invocations);
    assert s == IntroHead + part1;
    assert s[|IntroHead|..] == part1;
    CountPhraseRoundTrip(stubbings, "stubbing", tail1);
    assert tail1[..5] == " and ";
    assert tail1[5..] == part2;
    CountPhraseRoundTrip(invocations, "invocation", ".");
  }

  /** Different counts give different summary lines. */
  lemma IntroInjective(n: nat, m: nat, n': nat, m': nat)
    requires Intro(n, m) == Intro(n', m')
    ensures n == n' && m == m'
  {
    IntroRoundTrip(n, m);
    IntroRoundTrip(n', m');
  }

  /** `reduce("") { $0 + $1 }` over the lines of a section: no lines join to
      the empty string and one line to itself. */
  function Concat(lines: seq<string>): (s: string)
    ensures |lines| == 0 ==> s == ""
    ensures |lines| == 1 ==> s == lines[0]
  {
    if |lines| == 0 then ""
    else
      assert |lines| == 1 ==> lines[..0] == [];
      Concat(lines[..|lines| - 1]) + lines[|lines| - 1]
  }

  /** Joining two runs of lines one after the other joins each run and
      puts the results side by side: the lines keep their order. */
  lemma {:induction false} ConcatAppend(a: seq<string>, b: seq<string>)
    ensures Concat(a + b) == Concat(a) + Concat(b)
    decreases |b|
  {
    if |b| == 0 {
      assert a + b == a;
    } else {
      var init, last := b[..|b| - 1], b[|b| - 1];
      assert (a + b)[..|a + b| - 1] == a + init;
      assert (a + b)[|a + b| - 1] == last;
      ConcatAppend(a, init);
    }
  }

  /** The joined lines start with the join of every prefix of them. */
  lemma ConcatPrefix(lines: seq<string>, k: nat)
    requires k <= |lines|
    ensures StartsWith(Concat(lines), Concat(lines[..k]))
  {
    assert lines == lines[..k] + lines[k..];
    ConcatAppend(lines[..k], lines[k..]);
    assert Concat(lines)[..|Concat(lines[..k])|] == Concat(lines[..k]);
  }

  const StubbingHeading := "\n\n  Stubbings:"
  const InvocationHeading := "\n\n  Invocations:"

  function StubbingLine<V>(r: Renderer<V>, key: string, values: seq<Boxed<V>>): string
  {
    "\n  - When called with `" + key + "`, then return `" + r.showQueue(values) + "`."
  }

  /** `order` is an enumeration of the keys of `stubs` (the iteration order
      of the dictionary), each key exactly once. */
  predicate ListsKeysOf<V>(order: seq<string>, stubs: map<string, seq<Boxed<V>>>)
  {
    && |order| == |stubs|
    && (forall i :: 0 <= i < |order| ==> order[i] in stubs)
    && (forall k :: k in stubs ==> k in order)
  }

  /** One line per distinct argument key, in the given iteration order. */
  function StubbingLines<V>(r: Renderer<V>, stubs: map<string, seq<Boxed<V>>>, order: seq<string>): (lines: seq<string>)
    requires ListsKeysOf(order, stubs)
    ensures |lines| == |stubs|
    ensures forall k :: k in stubs ==> exists i :: 0 <= i < |lines| && lines[i] == StubbingLine(r, k, stubs[k])
    ensures forall i :: 0 <= i < |lines| ==> order[i] in stubs && lines[i] == StubbingLine(r, order[i], stubs[order[i]])
  {
    var lines := seq(|order|, i requires 0 <= i < |order| => StubbingLine(r, order[i], stubs[order[i]]));
    assert forall k :: k in stubs ==> exists i :: 0 <= i < |order| && order[i] == k && lines[i] == StubbingLine(r, k, stubs[k]);
    lines
  }

  /** `appendStubbingDescription`: present exactly when there are stubbings. */
  function StubbingSection<V>(r: Renderer<V>, stubs: map<string, seq<Boxed<V>>>, order: seq<string>): (s: string)
    requires ListsKeysOf(order, stubs)
    ensures s == "" <==> |stubs| == 0
    ensures |stubs| > 0 ==> StartsWith(s, StubbingHeading)
    ensures |stubs| > 0 ==> s == StubbingHeading + Concat(StubbingLines(r, stubs, order))
  {
    if |stubs| > 0 then StubbingHeading + Concat(StubbingLines(r, stubs, order)) else ""
  }

  /** A parameter rendered for the report: `nil` when absent. */
  function RenderParameter<V>(r: Renderer<V>, p: Option<V>): string
  {
    if p.Some? then r.show(p.value) else "nil"
  }

  function RenderParameters<V>(r: Renderer<V>, ps: seq<Option<V>>): (out: seq<string>)
    ensures |out| == |ps|
    ensures forall i :: 0 <= i < |ps| ==> out[i] == (if ps[i].None? then "nil" else r.show(ps[i].value))
  {
    seq(|ps|, i requires 0 <= i < |ps| => RenderParameter(r, ps[i]))
  }

  function InvocationLine<V>(r: Renderer<V>, ps: seq<Option<V>>): string
  {
    "\n  - Called with `" + r.showList(RenderParameters(r, ps)) + "`."
  }

  /** One line per invocation of `f`, in chronological order: line `i`
      shows the parameters of ordinal `i + 1`. */
  function InvocationLines<V>(r: Renderer<V>, log: seq<Invocation<V>>, f: string): (lines: seq<string>)
    ensures |lines| == Count(log, f)
    ensures forall i :: 0 <= i < |lines| ==> lines[i] == InvocationLine(r, Parameters(log, f, i + 1))
  {
    var matching := Matching(log, f);
    seq(|matching|, i requires 0 <= i < |matching| => InvocationLine(r, matching[i].parameters))
  }

  /** `appendInvocationDescription`: present exactly when `f` was invoked. */
  function InvocationSection<V>(r: Renderer<V>, log: seq<Invocation<V>>, f: string): (s: string)
    ensures s == "" <==> Count(log, f) == 0
    ensures Count(log, f) > 0 ==> StartsWith(s, InvocationHeading)
    ensures Count(log, f) > 0 ==> s == InvocationHeading + Concat(InvocationLines(r, log, f))
  {
    var lines := InvocationLines(r, log, f);
    if |lines| > 0 then InvocationHeading + Concat(lines) else ""
  }

  /** Appending two strings keeps the prefix, and changes the string exactly
      when one of them is not empty. */
  lemma AppendedTo(prefix: string, a: string, b: string)
    ensures StartsWith(prefix + a + b, prefix)
    ensures prefix + a + b == prefix <==> a == "" && b == ""
  {
    assert (prefix + a + b)[..|prefix|] == prefix;
    assert |prefix + a + b| == |prefix| + |a| + |b|;
  }

  /** `getDescription`: the summary line, then the two sections. The report
      is the bare summary line exactly when `f` has neither stubbings nor
      invocations. */
  function Description<V>(r: Renderer<V>, reg: Registry<V>, log: seq<Invocation<V>>, f: string, order: seq<string>): (s: string)
    requires ListsKeysOf(order, StubsOf(reg, f))
    ensures StartsWith(s, Intro(StubCount(reg, f), Count(log, f)))
    ensures s == Intro(StubCount(reg, f), Count(log, f)) <==> StubCount(reg, f) == 0 && Count(log, f) == 0
    ensures s == Intro(StubCount(reg, f), Count(log, f)) + StubbingSection(r, StubsOf(reg, f), order) + InvocationSection(r, log, f)
  {
    var intro := Intro(StubCount(reg, f), Count(log, f));
    var stubbing, invocation := StubbingSection(r, StubsOf(reg, f), order), InvocationSection(r, log, f);
    AppendedTo(intro, stubbing, invocation);
    intro + stubbing + invocation
  }

  lemma ZeroPhrase(noun: string, text: string)
    requires text == "0 " + noun + "s"
    ensures CountPhrase(0, noun) == text
  {
    assert Decimal(0) == "0";
  }

  lemma ZeroIntroText(a: string, b: string)
    requires a == "0 stubbings" && b == "0 invocations"
    ensures IntroHead + a + " and " + b + "." == "This function has 0 stubbings and 0 invocations."
  {
  }

  /** The summary line of a function with neither stubbings nor invocations. */
  lemma EmptyIntro()
    ensures Intro(0, 0) == "This function has 0 stubbings and 0 invocations."
  {
    var a, b := CountPhrase(0, "stubbing"), CountPhrase(0, "invocation");
    ZeroPhrase("stubbing", "0 stubbings");
    ZeroPhrase("invocation", "0 invocations");
    assert Intro(0, 0) == IntroHead + a + " and " + b + ".";
    ZeroIntroText(a, b);
  }

  /** The report for a function nobody stubbed or called. */
  lemma EmptyDescription<V>(r: Renderer<V>, reg: Registry<V>, log: seq<Invocation<V>>, f: string)
    requires f !in reg
    requires forall j :: 0 <= j < |log| ==> log[j].name != f
    ensures Description(r, reg, log, f, []) == "This function has 0 stubbings and 0 invocations."
  {
    InvokedIffRecorded(log, f);
    EmptyIntro();
  }
}
