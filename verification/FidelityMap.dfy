// FidelityMap: the configuration text that says how many cores each fidelity takes.

module FidelityMap {
  import opened Wrappers
  import opened Decimal
  import opened DecisionCore

  predicate FieldOk(value: int, count: nat) { 0 <= value <= MAX_CORES && (count > 0 ==> value != 0) }

  /** The grammar: at most eight fields, each followed by a comma or by the end; a comma may also end the text. */
  function Fields(text: string, count: nat): Option<seq<int>>
    decreases |text|
  {
    if |text| == 0 || count >= 8 then (if |text| == 0 && count >= 2 then Some([]) else None)
    else
      var field := Strtol(text);
      if field.None? || !FieldOk(field.value.0, count) then None
      else if |field.value.1| == 0 then (if count + 1 >= 2 then Some([field.value.0]) else None)
      else if field.value.1[0] != ',' then None
      else
        var rest := Fields(field.value.1[1..], count + 1);
        if rest.None? then None else Some([field.value.0] + rest.value)
  }

  /** parse_fidelity_map */
  method ParseFidelityMap(text: string) returns (r: Option<seq<int>>)
    ensures r == Fields(text, 0)
    ensures r.Some? ==> ValidMap(r.value)
    ensures r.Some? ==> 2 <= |r.value| <= 8 && 0 <= r.value[0] <= 10000
    ensures r.Some? ==> forall f :: 1 <= f < |r.value| ==> 1 <= r.value[f] <= 10000
  {
    hide Strtol;
    var cursor := text;
    var values: seq<int> := [];
    JoinedNone(Fields(text, 0));
    while |cursor| > 0 && |values| < 8
      invariant |values| <= 8
      invariant forall f :: 0 <= f < |values| ==> FieldOk(values[f], f)
      invariant Fields(text, 0) == Joined(values, Fields(cursor, |values|))
      decreases |cursor|
    {
      var field := Strtol(cursor);
      if field.None? || !FieldOk(field.value.0, |values|) { return None; }
      ghost var before, here := values, cursor;
      values := values + [field.value.0];
      var end := field.value.1;
      if |end| == 0 {
        cursor := end;
        assert Fields(text, 0) == if |values| >= 2 then Some(values) else None;
        break;
      }
      if end[0] != ',' { return None; }
      cursor := end[1..];
      JoinedOnce(before, field.value.0, Fields(cursor, |values|));
    }
    assert values + [] == values;
    if |values| < 2 || |cursor| > 0 { return None; }
    r := Some(values);
  }

  function Joined(front: seq<int>, back: Option<seq<int>>): Option<seq<int>> {
    if back.None? then None else Some(front + back.value)
  }

  lemma JoinedNone(back: Option<seq<int>>)
    ensures Joined([], back) == back
  {
    if back.Some? { assert [] + back.value == back.value; }
  }

  lemma JoinedOnce(front: seq<int>, v: int, back: Option<seq<int>>)
    ensures Joined(front, Joined([v], back)) == Joined(front + [v], back)
  {
    if back.Some? { assert front + ([v] + back.value) == front + [v] + back.value; }
  }

  function Written(values: seq<int>): string
    requires forall f :: 0 <= f < |values| ==> values[f] >= 0
  {
    if |values| == 0 then "" else if |values| == 1 then Print(values[0]) else Print(values[0]) + "," + Written(values[1..])
  }

  lemma FieldReads(value: int, rest: string, count: nat)
    requires FieldOk(value, count) && count < 8 && (|rest| > 0 ==> rest[0] == ',')
    ensures Fields(Print(value) + rest, count) ==
      if |rest| == 0 then (if count + 1 >= 2 then Some([value]) else None)
      else Joined([value], Fields(rest[1..], count + 1))
  {
    PrintReads(value);
    StrtolReads(value, rest);
    hide Strtol, Print;
  }

  /** Every map that is allowed can be written down and is read back, with or without a comma after it. */
  lemma {:induction false} WrittenReads(values: seq<int>, count: nat, end: string)
    requires 0 < |values| && |values| + count <= 8 && 2 <= |values| + count && (end == "" || end == ",")
    requires forall f :: 0 <= f < |values| ==> values[f] >= 0 && FieldOk(values[f], count + f)
    ensures Fields(Written(values) + end, count) == Some(values)
    decreases |values|
  {
    hide Strtol, Print;
    if |values| == 1 {
      FieldReads(values[0], end, count);
      if |end| > 0 { assert |end[1..]| == 0; }
      assert [values[0]] == values && [values[0]] + [] == values;
    } else {
      var rest := Written(values[1..]) + end;
      assert Written(values) + end == Print(values[0]) + ("," + rest);
      FieldReads(values[0], "," + rest, count);
      assert ("," + rest)[1..] == rest;
      WrittenReads(values[1..], count + 1, end);
      assert [values[0]] + values[1..] == values;
      hide Fields;
    }
  }

  /** Two to eight numbers up to 10000, none but the first of them zero, are read back from their text. */
  lemma MapReads(values: seq<int>, end: string)
    requires 2 <= |values| <= 8 && 0 <= values[0] <= 10000 && (end == "" || end == ",")
    requires forall f :: 1 <= f < |values| ==> 1 <= values[f] <= 10000
    ensures Fields(Written(values) + end, 0) == Some(values)
  {
    WrittenReads(values, 0, end);
    hide Fields, Written;
  }
}
