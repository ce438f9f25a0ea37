/** The engine a mock owns: the stub registry and the invocation log as
    mutable fields, changed in place by `stub`, `value` and `record`, and read
    by the queries and the report. */
module Engine {
  import opened Values
  import opened StubRegistry
  import opened InvocationLog
  import Report

  class Moxie<V> {
    /** function name -> argument key -> queue of return values */
    var stubbings: Registry<V>
    /** every recorded call, in call order */
    var invocations: seq<Invocation<V>>
    /** the host language's renderings the engine relies on */
    const render: Renderer<V>

    /** No queue is ever empty: `stub` ignores an empty list and `value`
        never pops the last element. */
    ghost predicate Valid()
      reads this
    {
      QueuesNonEmpty(stubbings)
    }

    constructor (render: Renderer<V>)
      ensures Valid()
      ensures stubbings == map[] && invocations == [] && this.render == render
    {
      this.render := render;
      stubbings := map[];
      invocations := [];
    }

    /** `getKey`: the argument key of a parameter list. */
    function GetKey(parameters: seq<V>): string
    {
      render.key(parameters)
    }

    /** `stub(function:whenCalledWith:return:)` */
    method Stub(name: string, parameters: seq<V>, values: seq<Boxed<V>>)
      requires Valid()
      modifies this
      ensures Valid()
      ensures stubbings == StubRegistry.Stub(old(stubbings), name, GetKey(parameters), values)
      ensures invocations == old(invocations)
    {
      StubKeepsQueuesNonEmpty(stubbings, name, GetKey(parameters), values);
      if |values| > 0 {
        if name !in stubbings {
          stubbings := stubbings[name := map[GetKey(parameters) := values]];
        } else {
          stubbings := stubbings[name := stubbings[name][GetKey(parameters) := values]];
        }
      }
    }

    /** `value(forFunction:whenCalledWith:)` read as type `t` */
    method Value(name: string, parameters: seq<V>, t: TypeTag) returns (r: Option<Boxed<V>>)
      requires Valid()
      modifies this
      ensures Valid()
      ensures r == ValueResult(old(stubbings), name, GetKey(parameters), t)
      ensures stubbings == AfterValue(old(stubbings), name, GetKey(parameters), t)
      ensures invocations == old(invocations)
    {
      ValueKeepsQueuesNonEmpty(stubbings, name, GetKey(parameters), t);
      var key := GetKey(parameters);
      var values := if name in stubbings && key in stubbings[name] then CastQueue(stubbings[name][key], t) else None;
      if values.Some? && |values.value| > 0 {
        var value := values.value[0];
        RemoveSequentialStubbing(name, parameters);
        r := UnwrappedReturnValue(value);
      } else {
        r := None;
      }
    }

    /** `removeSequentialStubbing(forFunction:whenCalledWith:)` */
    method RemoveSequentialStubbing(name: string, parameters: seq<V>)
      requires Valid()
      modifies this
      ensures Valid()
      ensures stubbings == StubRegistry.RemoveSequentialStubbing(old(stubbings), name, GetKey(parameters))
      ensures invocations == old(invocations)
    {
      RemoveKeepsQueuesNonEmpty(stubbings, name, GetKey(parameters));
      var key := GetKey(parameters);
      if name in stubbings && key in stubbings[name] && |stubbings[name][key]| > 1 {
        stubbings := stubbings[name := stubbings[name][key := stubbings[name][key][1..]]];
      }
    }

    /** `record(function:wasCalledWith:)` */
    method Record(name: string, parameters: seq<Option<V>>)
      requires Valid()
      modifies this
      ensures Valid()
      ensures invocations == old(invocations) + [Invocation(name, parameters)]
      ensures stubbings == old(stubbings)
    {
      invocations := invocations + [Invocation(name, parameters)];
    }

    /** `invocations(forFunction:)`: zero exactly when no recorded call has
        that name. */
    function InvocationCount(name: string): (n: nat)
      reads this
      ensures n == 0 <==> forall j :: 0 <= j < |invocations| ==> invocations[j].name != name
    {
      InvokedIffRecorded(invocations, name);
      Count(invocations, name)
    }

    /** `invoked(function:)`: some recorded call has that name. */
    predicate WasInvoked(name: string)
      reads this
      ensures WasInvoked(name) <==> exists j :: 0 <= j < |invocations| && invocations[j].name == name
    {
      InvokedIffRecorded(invocations, name);
      Invoked(invocations, name)
    }

    /** `parameters(forFunction:invocation:)`: the parameters of the
        `invocation`-th call of that name, `[]` for an ordinal out of range. */
    function ParametersFor(name: string, invocation: int): (r: seq<Option<V>>)
      reads this
      ensures !(1 <= invocation <= InvocationCount(name)) ==> r == []
      ensures 1 <= invocation <= InvocationCount(name) ==>
        exists j :: 0 <= j < |invocations| && invocations[j].name == name &&
          Count(invocations[..j], name) == invocation - 1 && r == invocations[j].parameters
    {
      if 1 <= invocation <= InvocationCount(name) then
        ParametersOfIthMatch(invocations, name, invocation);
        Parameters(invocations, name, invocation)
      else
        Parameters(invocations, name, invocation)
    }

    /** `interactions(withFunction:)`, with `order` the iteration order of
        the function's stubbings: the summary line, then the "Stubbings:"
        section (present exactly when the function has stubbings), then the
        "Invocations:" section (present exactly when it was invoked). */
    function Interactions(name: string, order: seq<string>): (s: string)
      reads this
      requires Report.ListsKeysOf(order, StubsOf(stubbings, name))
      ensures Report.StartsWith(s, Report.Intro(StubCount(stubbings, name), InvocationCount(name)))
      ensures s == Report.Intro(StubCount(stubbings, name), InvocationCount(name)) <==>
        StubCount(stubbings, name) == 0 && InvocationCount(name) == 0
      ensures s == Report.Intro(StubCount(stubbings, name), InvocationCount(name))
        + Report.StubbingSection(render, StubsOf(stubbings, name), order)
        + Report.InvocationSection(render, invocations, name)
    {
      Report.Description(render, stubbings, invocations, name, order)
    }
  }
}
