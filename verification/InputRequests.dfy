/** The pass over the management sheet that gives every general input step an input_request_id output. */
module InputRequests {
  import opened Text

  const INPUT_REQUEST_ID := "input_request_id"

  datatype StepName = StepName(workflow: string, step: string)
  datatype StepRow = StepRow(name: StepName, outputs: string)
  datatype MappingRow = MappingRow(name: StepName, key: string)

  /** The output key list with the key in it; a list that has it is left as it was written. */
  function WithKey(outputs: string): string {
    if INPUT_REQUEST_ID in SplitList(outputs) then outputs else Join(SplitList(outputs) + [INPUT_REQUEST_ID])
  }

  /** Read back, the list has gained the key and nothing else has changed. */
  lemma {:induction false} WithKeyReadsBack(outputs: string)
    ensures SplitList(WithKey(outputs)) ==
            if INPUT_REQUEST_ID in SplitList(outputs) then SplitList(outputs)
            else SplitList(outputs) + [INPUT_REQUEST_ID]
  {
    SplitYieldsKeys(outputs);
    assert IsKey(INPUT_REQUEST_ID);
    SplitUndoesJoin(SplitList(outputs) + [INPUT_REQUEST_ID]);
  }

  lemma {:induction false} WithKeyTwice(outputs: string)
    ensures WithKey(WithKey(outputs)) == WithKey(outputs)
  {
    WithKeyReadsBack(outputs);
  }

  /** The rows after a list of steps has been treated. */
  function Treated(rows: seq<StepRow>, names: seq<StepName>): seq<StepRow> {
    seq(|rows|, i requires 0 <= i < |rows| =>
      if rows[i].name in names then rows[i].(outputs := WithKey(rows[i].outputs)) else rows[i])
  }

  function MappingsFor(names: seq<StepName>): seq<MappingRow> {
    seq(|names|, i requires 0 <= i < |names| => MappingRow(names[i], INPUT_REQUEST_ID))
  }

  predicate FoundOnce(rows: seq<StepRow>, name: StepName) {
    exists i :: 0 <= i < |rows| && OnlyAt(rows, name, i)
  }

  predicate OnlyAt(rows: seq<StepRow>, name: StepName, i: nat)
    requires i < |rows|
  {
    forall j :: 0 <= j < |rows| ==> (rows[j].name == name <==> j == i)
  }

  lemma {:induction false} FoundOnceKept(rows: seq<StepRow>, names: seq<StepName>, name: StepName)
    ensures FoundOnce(Treated(rows, names), name) <==> FoundOnce(rows, name)
  {
    var after := Treated(rows, names);
    assert forall i :: 0 <= i < |rows| ==> after[i].name == rows[i].name;
    assert forall i :: 0 <= i < |rows| ==> (OnlyAt(after, name, i) <==> OnlyAt(rows, name, i));
  }

  lemma {:induction false} TreatedOneMore(rows: seq<StepRow>, names: seq<StepName>, name: StepName)
    ensures Treated(Treated(rows, names), [name]) == Treated(rows, names + [name])
  {
    forall i | 0 <= i < |rows|
      ensures Treated(Treated(rows, names), [name])[i] == Treated(rows, names + [name])[i]
    {
      WithKeyTwice(rows[i].outputs);
    }
  }

  lemma {:induction false} CountMatches(rows: seq<StepRow>, name: StepName, matching: seq<nat>)
    requires forall k :: 0 <= k < |matching| ==> matching[k] < |rows| && rows[matching[k]].name == name
    requires forall k, l :: 0 <= k < l < |matching| ==> matching[k] < matching[l]
    requires forall j :: 0 <= j < |rows| && rows[j].name == name ==> j in matching
    ensures FoundOnce(rows, name) <==> |matching| == 1
  {
    assert |matching| > 1 ==> matching[0] < matching[1];
    if FoundOnce(rows, name) {
      var i :| 0 <= i < |rows| && OnlyAt(rows, name, i);
      assert i in matching;
      assert forall k :: 0 <= k < |matching| ==> matching[k] == i;
    } else if |matching| == 1 {
      assert OnlyAt(rows, name, matching[0]);
    }
  }

  class ManagementSheet {
    var steps: seq<StepRow>
    var mappings: seq<MappingRow>

    /** Treats one step; fails, changing nothing, unless exactly one row names it. */
    method AddInputRequest(name: StepName) returns (ok: bool)
      modifies this
      ensures ok <==> FoundOnce(old(steps), name)
      ensures ok ==> steps == Treated(old(steps), [name])
      ensures ok ==> mappings == old(mappings) + [MappingRow(name, INPUT_REQUEST_ID)]
      ensures !ok ==> steps == old(steps) && mappings == old(mappings)
    {
      var matching: seq<nat> := [];
      for i := 0 to |steps|
        invariant steps == old(steps) && mappings == old(mappings)
        invariant forall k :: 0 <= k < |matching| ==> 0 <= matching[k] < i && steps[matching[k]].name == name
        invariant forall k, l :: 0 <= k < l < |matching| ==> matching[k] < matching[l]
        invariant forall j :: 0 <= j < i && steps[j].name == name ==> j in matching
      {
        if steps[i].name == name {
          matching := matching + [i];
        }
      }
      CountMatches(steps, name, matching);
      if |matching| != 1 {
        return false;
      }
      var at := matching[0];
      assert OnlyAt(steps, name, at);
      var row := steps[at];
      var keys := SplitList(row.outputs);
      if INPUT_REQUEST_ID !in keys {
        steps := steps[at := row.(outputs := Join(keys + [INPUT_REQUEST_ID]))];
      }
      mappings := mappings + [MappingRow(name, INPUT_REQUEST_ID)];
      return true;
    }

    /** Treats all steps in turn; afterwards each has the key among its outputs and a mapping row of its own, and
        every other row is as it was. */
    method AddInputRequests(names: seq<StepName>) returns (ok: bool)
      modifies this
      ensures ok <==> forall k :: 0 <= k < |names| ==> FoundOnce(old(steps), names[k])
      ensures ok ==> steps == Treated(old(steps), names) && mappings == old(mappings) + MappingsFor(names)
    {
      assert Treated(steps, names[..0]) == steps;
      for n := 0 to |names|
        invariant forall k :: 0 <= k < n ==> FoundOnce(old(steps), names[k])
        invariant steps == Treated(old(steps), names[..n])
        invariant mappings == old(mappings) + MappingsFor(names[..n])
      {
        ok := AddInputRequest(names[n]);
        FoundOnceKept(old(steps), names[..n], names[n]);
        if !ok {
          return;
        }
        TreatedOneMore(old(steps), names[..n], names[n]);
        assert names[..n] + [names[n]] == names[..n + 1];
        assert MappingsFor(names[..n]) + [MappingRow(names[n], INPUT_REQUEST_ID)] == MappingsFor(names[..n + 1]);
      }
      assert names[..|names|] == names;
      return true;
    }
  }
}
