/** The repository's tests, restated against the engine with a small concrete
    value universe and concrete renderings. */
module Scenarios {
  import opened Values
  import opened Engine
  import Report
  import InvocationLog
  import StubRegistry

  /** Sample argument and return values: integers, strings, the tests'
      `TestStruct`, and an object whose rendering does not show its identity
      (as a class instance without a custom description renders as its type
      name). */
  datatype Sample = Num(n: nat) | Text(s: string) | Struct(num: nat, name: string) | Handle(id: nat)

  const IntType := Named("Int")
  const StringType := Named("String")

  function ShowSample(x: Sample): string
  {
    match x
    case Num(n) => Report.Decimal(n)
    case Text(s) => "\"" + s + "\""
    case Struct(n, s) => "TestStruct(num: " + Report.Decimal(n) + ", name: \"" + s + "\")"
    case Handle(_) => "Handle"
  }

  function Join(items: seq<string>): string
  {
    if |items| == 0 then "" else if |items| == 1 then items[0] else items[0] + ", " + Join(items[1..])
  }

  function SampleKey(ps: seq<Sample>): string
  {
    "[" + Join(seq(|ps|, i requires 0 <= i < |ps| => ShowSample(ps[i]))) + "]"
  }

  function ShowList(items: seq<string>): string
  {
    "[" + Join(items) + "]"
  }

  function ShowQueue(q: seq<Boxed<Sample>>): string
  {
    "[" + Report.Decimal(|q|) + " values]"
  }

  function SampleRenderer(): Renderer<Sample>
  {
    Renderer(SampleKey, ShowSample, ShowList, ShowQueue)
  }

  function Str(s: string): Boxed<Sample>
  {
    Plain(StringType, Text(s))
  }

  function Int(n: nat): Boxed<Sample>
  {
    Plain(IntType, Num(n))
  }

  /** testRecordWithNoParameters */
  method RecordWithNoParameters() returns (count: nat)
    ensures count == 1
  {
    var m := new Moxie<Sample>(SampleRenderer());
    m.Record("something", []);
    count := m.InvocationCount("something");
  }

  /** testRecordWithASpecificSetOfParameters */
  method RecordWithParameters() returns (count: nat, first: seq<Option<Sample>>, second: seq<Option<Sample>>)
    ensures count == 2
    ensures first == [Some(Num(1)), Some(Text("5"))]
    ensures second == []
  {
    var m := new Moxie<Sample>(SampleRenderer());
    m.Record("something", [Some(Num(1)), Some(Text("5"))]);
    ghost var once := m.invocations;
    m.Record("something", []);
    InvocationLog.RecordCount(once, InvocationLog.Invocation("something", []), "something");
    count := m.InvocationCount("something");
    first := m.ParametersFor("something", 1);
    second := m.ParametersFor("something", 2);
  }

  /** testVerifyReturnsTrueWhenFunctionWasCalled,
      testVerifyReturnsFalseWhenFunctionWasNotCalled,
      testVerifyReturnsTrueWhenCalledWithMatchingParameters */
  method InvokedOrNot() returns (before: bool, afterPlain: bool, afterWithParameters: bool)
    ensures !before && afterPlain && afterWithParameters
  {
    var idle := new Moxie<Sample>(SampleRenderer());
    before := idle.WasInvoked("something");
    var m := new Moxie<Sample>(SampleRenderer());
    m.Record("something", []);
    afterPlain := m.WasInvoked("something");
    var n := new Moxie<Sample>(SampleRenderer());
    n.Record("something", [Some(Num(1)), Some(Text("two"))]);
    afterWithParameters := n.WasInvoked("something");
  }

  /** testStubbingWithNoReturnValue, testStubbingWithParametersWithNilReturnValue */
  method StubbingWithNoReturnValue() returns (r: Option<Boxed<Sample>>)
    ensures r == None
  {
    var m := new Moxie<Sample>(SampleRenderer());
    m.Stub("noparams", [], []);
    r := m.Value("noparams", [], AnyType);
  }

  /** testStubbingSomething, testStubbingWithParametersWithAReturnValue */
  method StubbingSomething() returns (text: Option<Boxed<Sample>>, number: Option<Boxed<Sample>>)
    ensures text == Some(Str("something"))
    ensures number == Some(Int(5))
  {
    var m := new Moxie<Sample>(SampleRenderer());
    m.Stub("noparams", [], [Str("something")]);
    text := m.Value("noparams", [], AnyType);
    m.Stub("twoparams", [], [Int(5)]);
    number := m.Value("twoparams", [], AnyType);
  }

  /** testExplain */
  method Explain() returns (report: string)
    ensures report == "This function has 0 stubbings and 0 invocations."
  {
    var m := new Moxie<Sample>(SampleRenderer());
    Report.EmptyDescription(m.render, m.stubbings, m.invocations, "not there");
    report := m.Interactions("not there", []);
  }

  /** testCanStubConditionally */
  method CanStubConditionally() returns (one: Option<Boxed<Sample>>, two: Option<Boxed<Sample>>)
    ensures one == Some(Str("One"))
    ensures two == Some(Str("Two"))
  {
    var m := new Moxie<Sample>(SampleRenderer());
    assert SampleKey([Num(1)]) == "[1]";
    assert SampleKey([Num(2)]) == "[2]";
    m.Stub("say", [Num(1)], [Str("One")]);
    m.Stub("say", [Num(2)], [Str("Two")]);
    StubRegistry.ValueOnQueue(m.stubbings, "say", "[1]", StringType, [Str("One")]);
    one := m.Value("say", [Num(1)], StringType);
    StubRegistry.ValueOnQueue(m.stubbings, "say", "[2]", StringType, [Str("Two")]);
    two := m.Value("say", [Num(2)], StringType);
  }

  /** The argument key of a single argument is its rendering in brackets. */
  lemma SingleKey(x: Sample)
    ensures SampleKey([x]) == "[" + ShowSample(x) + "]"
  {
    assert seq(1, i requires 0 <= i < 1 => ShowSample([x][i])) == [ShowSample(x)];
  }

  /** A struct renders with its number right after the type name. */
  lemma StructShowsNumber(n: nat, name: string)
    requires n < 10
    ensures |ShowSample(Struct(n, name))| > 16 && ShowSample(Struct(n, name))[16] == Report.DigitChar(n)
  {
    assert Report.Decimal(n) == [Report.DigitChar(n)];
  }

  /** The three structs of the test render to three different keys. */
  lemma StructKeysDiffer()
    ensures SampleKey([Struct(1, "Hi")]) != SampleKey([Struct(3, "Yo")])
    ensures SampleKey([Struct(1, "Hi")]) != SampleKey([Struct(7, "Third")])
    ensures SampleKey([Struct(3, "Yo")]) != SampleKey([Struct(7, "Third")])
  {
    SingleKey(Struct(1, "Hi"));
    SingleKey(Struct(3, "Yo"));
    SingleKey(Struct(7, "Third"));
    StructShowsNumber(1, "Hi");
    StructShowsNumber(3, "Yo");
    StructShowsNumber(7, "Third");
    assert SampleKey([Struct(1, "Hi")])[17] == '1';
    assert SampleKey([Struct(3, "Yo")])[17] == '3';
    assert SampleKey([Struct(7, "Third")])[17] == '7';
  }

  /** Three stubs of one function under three argument lists with different
      keys are read back independently, each as its own stubbed value. */
  method StubAndReadThree<V>(m: Moxie<V>, f: string, p1: seq<V>, p2: seq<V>, p3: seq<V>, v1: Boxed<V>, v2: Boxed<V>, v3: Boxed<V>, t: TypeTag)
    returns (a: Option<Boxed<V>>, b: Option<Boxed<V>>, c: Option<Boxed<V>>)
    requires m.Valid()
    requires m.GetKey(p1) != m.GetKey(p2) && m.GetKey(p1) != m.GetKey(p3) && m.GetKey(p2) != m.GetKey(p3)
    requires v1.Plain? && v2.Plain? && v3.Plain?
    requires Conforms(v1, t) && Conforms(v2, t) && Conforms(v3, t)
    modifies m
    ensures m.Valid()
    ensures a == Some(v1) && b == Some(v2) && c == Some(v3)
  {
    ghost var k1, k2, k3 := m.GetKey(p1), m.GetKey(p2), m.GetKey(p3);
    m.Stub(f, p1, [v1]);
    m.Stub(f, p2, [v2]);
    assert StubRegistry.QueueAt(m.stubbings, f, k1) == Some([v1]);
    m.Stub(f, p3, [v3]);
    assert StubRegistry.QueueAt(m.stubbings, f, k1) == Some([v1]);
    assert StubRegistry.QueueAt(m.stubbings, f, k2) == Some([v2]);
    StubRegistry.ValueOnQueue(m.stubbings, f, k1, t, [v1]);
    a := m.Value(f, p1, t);
    StubRegistry.ValueOnQueue(m.stubbings, f, k2, t, [v2]);
    b := m.Value(f, p2, t);
    StubRegistry.ValueOnQueue(m.stubbings, f, k3, t, [v3]);
    c := m.Value(f, p3, t);
  }

  /** testConditionalStubbingWithStructParams: struct arguments that render
      differently select different stubs. */
  method StructParams() returns (a: Option<Boxed<Sample>>, b: Option<Boxed<Sample>>, c: Option<Boxed<Sample>>)
    ensures a == Some(Int(5)) && b == Some(Int(2)) && c == Some(Int(9))
  {
    var m := new Moxie<Sample>(SampleRenderer());
    StructKeysDiffer();
    a, b, c := StubAndReadThree(m, "getNumber", [Struct(1, "Hi")], [Struct(3, "Yo")], [Struct(7, "Third")], Int(5), Int(2), Int(9), IntType);
  }

  /** testLastInWins */
  method LastInWins() returns (r: Option<Boxed<Sample>>)
    ensures r == Some(Str("Two"))
  {
    var m := new Moxie<Sample>(SampleRenderer());
    m.Stub("say", [Num(2)], [Str("One")]);
    m.Stub("say", [Num(2)], [Str("Two")]);
    r := m.Value("say", [Num(2)], StringType);
  }

  /** Sequential stubbing: the values come back in order, the last repeats. */
  method SequentialValues() returns (a: Option<Boxed<Sample>>, b: Option<Boxed<Sample>>, c: Option<Boxed<Sample>>, d: Option<Boxed<Sample>>)
    ensures a == Some(Int(1)) && b == Some(Int(2)) && c == Some(Int(3)) && d == Some(Int(3))
  {
    var m := new Moxie<Sample>(SampleRenderer());
    var q := [Int(1), Int(2), Int(3)];
    ghost var k := m.GetKey([]);
    m.Stub("next", [], q);
    StubRegistry.ValueOnQueue(m.stubbings, "next", k, IntType, q);
    a := m.Value("next", [], IntType);
    StubRegistry.ValueOnQueue(m.stubbings, "next", k, IntType, q[1..]);
    b := m.Value("next", [], IntType);
    StubRegistry.ValueOnQueue(m.stubbings, "next", k, IntType, q[2..]);
    c := m.Value("next", [], IntType);
    StubRegistry.ValueOnQueue(m.stubbings, "next", k, IntType, q[2..]);
    d := m.Value("next", [], IntType);
  }

  /** A request for the wrong type reads as absent and consumes nothing. An
      optional without a payload cannot be read as its wrapped type, so a typed
      read fails on the whole queue and consumes nothing either. Read as
      `Any`, the same optional reads as absent and is consumed. */
  method AbsentAndMismatch() returns (wrongType: Option<Boxed<Sample>>, typed1: Option<Boxed<Sample>>, typed2: Option<Boxed<Sample>>, any1: Option<Boxed<Sample>>, any2: Option<Boxed<Sample>>)
    ensures wrongType == None && typed1 == None && typed2 == None
    ensures any1 == None && any2 == Some(Int(5))
  {
    var m := new Moxie<Sample>(SampleRenderer());
    var q := [Optional(IntType, None), Int(5)];
    ghost var k := m.GetKey([]);
    m.Stub("maybe", [], q);
    wrongType := m.Value("maybe", [], StringType);
    assert !Conforms(q[0], IntType);
    typed1 := m.Value("maybe", [], IntType);
    typed2 := m.Value("maybe", [], IntType);
    StubRegistry.ValueOnQueue(m.stubbings, "maybe", k, AnyType, q);
    any1 := m.Value("maybe", [], AnyType);
    StubRegistry.ValueOnQueue(m.stubbings, "maybe", k, AnyType, q[1..]);
    any2 := m.Value("maybe", [], AnyType);
  }

  /** Two different argument lists that render alike share one stub. */
  method KeyCollision() returns (r: Option<Boxed<Sample>>)
    ensures r == Some(Str("shared"))
  {
    var m := new Moxie<Sample>(SampleRenderer());
    m.Stub("use", [Handle(1)], [Str("shared")]);
    assert SampleKey([Handle(2)]) == SampleKey([Handle(1)]);
    r := m.Value("use", [Handle(2)], StringType);
  }
}
