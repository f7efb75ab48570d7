/** Batched validation of common codes: two grouped queries stand in for one look-up per field. */
module Codes {
  import opened Common

  /** The group codes the services name, and any other. */
  datatype GroupCode = TripPurpose | DestinationType | Country | ExpenseCategory | Position | OtherGroup(name: string)

  datatype CodeGroup = CodeGroup(id: Id, groupCode: GroupCode, isActive: bool)
  datatype Code = Code(groupId: Id, code: string, isActive: bool)
  datatype CodeRows = CodeRows(groups: seq<CodeGroup>, codes: seq<Code>)

  /** The primary key and the unique constraint on `code_group.group_code`. */
  predicate UniqueGroups(t: CodeRows) {
    forall i, j | 0 <= i < j < |t.groups| ::
      t.groups[i].id != t.groups[j].id && t.groups[i].groupCode != t.groups[j].groupCode
  }

  type CodeTable = t: CodeRows | UniqueGroups(t) witness CodeRows([], [])

  datatype CodeSpec = CodeSpec(group: GroupCode, field: FieldName, value: Option<string>)

  // ---------------------------------------------------------------------------
  // What the validation promises, one field at a time

  predicate GroupActive(t: CodeTable, group: GroupCode) {
    exists g | g in t.groups :: g.groupCode == group && g.isActive
  }

  predicate CodeActive(t: CodeTable, group: GroupCode, value: Option<string>) {
    && value.Some?
    && exists g | g in t.groups :: g.groupCode == group && g.isActive &&
         exists c | c in t.codes :: c.groupId == g.id && c.isActive && c.code == value.value
  }

  function FirstUnknownGroup(t: CodeTable, specs: seq<CodeSpec>): Result<()> {
    if specs == [] then Ok(())
    else if !GroupActive(t, specs[0].group) then Err(UnknownCodeGroup(specs[0].field))
    else FirstUnknownGroup(t, specs[1..])
  }

  function FirstBadValue(t: CodeTable, specs: seq<CodeSpec>): Result<()> {
    if specs == [] then Ok(())
    else if !CodeActive(t, specs[0].group, specs[0].value) then Err(InvalidCode(specs[0].field))
    else FirstBadValue(t, specs[1..])
  }

  function Verdict(t: CodeTable, specs: seq<CodeSpec>): Result<()> {
    var _ :- FirstUnknownGroup(t, specs);
    FirstBadValue(t, specs)
  }

  lemma {:induction false} FirstUnknownGroupAt(t: CodeTable, specs: seq<CodeSpec>) returns (i: nat)
    ensures i <= |specs| && forall k | 0 <= k < i :: GroupActive(t, specs[k].group)
    ensures FirstUnknownGroup(t, specs) ==
      if i == |specs| then Ok(()) else Err(UnknownCodeGroup(specs[i].field))
    ensures i < |specs| ==> !GroupActive(t, specs[i].group)
  {
    if specs == [] || !GroupActive(t, specs[0].group) {
      i := 0;
    } else {
      var j := FirstUnknownGroupAt(t, specs[1..]);
      i := j + 1;
      assert forall k | 1 <= k < i :: specs[k] == specs[1..][k - 1];
    }
  }

  lemma {:induction false} FirstBadValueAt(t: CodeTable, specs: seq<CodeSpec>) returns (i: nat)
    ensures i <= |specs| && forall k | 0 <= k < i :: CodeActive(t, specs[k].group, specs[k].value)
    ensures FirstBadValue(t, specs) == if i == |specs| then Ok(()) else Err(InvalidCode(specs[i].field))
    ensures i < |specs| ==> !CodeActive(t, specs[i].group, specs[i].value)
  {
    if specs == [] || !CodeActive(t, specs[0].group, specs[0].value) {
      i := 0;
    } else {
      var j := FirstBadValueAt(t, specs[1..]);
      i := j + 1;
      assert forall k | 1 <= k < i :: specs[k] == specs[1..][k - 1];
    }
  }

  /** Acceptance is exactly "every group is active and every value is an active code of its group"; a refusal names
      the first unknown group in spec order, and only when there is none the first bad value in spec order. */
  lemma VerdictReportsTheFirstProblem(t: CodeTable, specs: seq<CodeSpec>) returns (i: nat)
    ensures Verdict(t, specs).Ok? <==>
      forall s | s in specs :: GroupActive(t, s.group) && CodeActive(t, s.group, s.value)
    ensures i <= |specs|
    ensures Verdict(t, specs).Err? ==> i < |specs|
    ensures Verdict(t, specs).Err? && (exists s | s in specs :: !GroupActive(t, s.group)) ==>
      && Verdict(t, specs) == Err(UnknownCodeGroup(specs[i].field)) && !GroupActive(t, specs[i].group)
      && forall k | 0 <= k < i :: GroupActive(t, specs[k].group)
    ensures Verdict(t, specs).Err? && (forall s | s in specs :: GroupActive(t, s.group)) ==>
      && Verdict(t, specs) == Err(InvalidCode(specs[i].field)) && !CodeActive(t, specs[i].group, specs[i].value)
      && forall k | 0 <= k < i :: CodeActive(t, specs[k].group, specs[k].value)
  {
    var unknown := FirstUnknownGroupAt(t, specs);
    var bad := FirstBadValueAt(t, specs);
    i := if unknown < |specs| then unknown else bad;
    assert unknown < |specs| ==> specs[unknown] in specs;
    assert bad < |specs| ==> specs[bad] in specs;
    assert forall s | s in specs :: exists k | 0 <= k < |specs| :: specs[k] == s;
  }

  lemma ActiveCodeHasGroup(t: CodeTable, group: GroupCode, value: Option<string>)
    requires CodeActive(t, group, value)
    ensures GroupActive(t, group)
  {
    var g :| g in t.groups && g.groupCode == group && g.isActive;
  }

  lemma VerdictNamesAField(t: CodeTable, specs: seq<CodeSpec>)
    ensures Verdict(t, specs).Err? ==> Verdict(t, specs).error.UnknownCodeGroup? || Verdict(t, specs).error.InvalidCode?
  {
    var i := VerdictReportsTheFirstProblem(t, specs);
  }

  // ---------------------------------------------------------------------------
  // The batched algorithm

  function AssertValidCode(value: Option<string>, allowed: set<string>, field: FieldName): Result<()> {
    Check(value.Some? && value.value in allowed, InvalidCode(field))
  }

  /** The first query: active groups among the wanted ones, as a dictionary from group code to id. */
  method LoadGroupIds(t: CodeTable, wanted: set<GroupCode>) returns (idOf: map<GroupCode, Id>)
    ensures forall code :: code in idOf <==> code in wanted && GroupActive(t, code)
    ensures forall code | code in idOf ::
      exists g | g in t.groups :: g.groupCode == code && g.isActive && g.id == idOf[code]
  {
    idOf := map[];
    for i := 0 to |t.groups|
      invariant forall code :: code in idOf <==>
        code in wanted && exists g | g in t.groups[..i] :: g.groupCode == code && g.isActive
      invariant forall code | code in idOf ::
        exists g | g in t.groups :: g.groupCode == code && g.isActive && g.id == idOf[code]
    {
      var g := t.groups[i];
      assert t.groups[..i + 1] == t.groups[..i] + [g];
      if g.groupCode in wanted && g.isActive {
        idOf := idOf[g.groupCode := g.id];
      }
    }
    assert t.groups[..|t.groups|] == t.groups;
  }

  /** The second query: the active codes of those groups, collected per group id. */
  method LoadAllowedCodes(t: CodeTable, ids: set<Id>) returns (allowed: map<Id, set<string>>)
    ensures forall id, code | id in ids ::
      (id in allowed && code in allowed[id]) <==> Code(id, code, true) in t.codes
  {
    allowed := map[];
    for i := 0 to |t.codes|
      invariant forall id, code | id in ids ::
        (id in allowed && code in allowed[id]) <==> Code(id, code, true) in t.codes[..i]
    {
      var c := t.codes[i];
      assert t.codes[..i + 1] == t.codes[..i] + [c];
      if c.groupId in ids && c.isActive {
        var codes := if c.groupId in allowed then allowed[c.groupId] else {};
        allowed := allowed[c.groupId := codes + {c.code}];
        assert c == Code(c.groupId, c.code, true);
      }
    }
    assert t.codes[..|t.codes|] == t.codes;
  }

  lemma CodeActiveById(t: CodeTable, group: GroupCode, id: Id, value: Option<string>)
    requires exists g | g in t.groups :: g.groupCode == group && g.isActive && g.id == id
    ensures CodeActive(t, group, value) <==> value.Some? && Code(id, value.value, true) in t.codes
  {
    var g :| g in t.groups && g.groupCode == group && g.isActive && g.id == id;
    forall h | h in t.groups && h.groupCode == group ensures h == g {
      var i :| 0 <= i < |t.groups| && t.groups[i] == g;
      var j :| 0 <= j < |t.groups| && t.groups[j] == h;
    }
    if CodeActive(t, group, value) {
      var c :| c in t.codes && c.groupId == id && c.isActive && c.code == value.value;
      assert c == Code(id, value.value, true);
    }
    if value.Some? && Code(id, value.value, true) in t.codes {
      var c := Code(id, value.value, true);
      assert c.groupId == g.id && c.isActive && c.code == value.value;
    }
  }

  method CheckGroups(t: CodeTable, specs: seq<CodeSpec>, idOf: map<GroupCode, Id>) returns (r: Result<()>)
    requires forall s | s in specs :: s.group in idOf <==> GroupActive(t, s.group)
    ensures r == FirstUnknownGroup(t, specs)
    ensures r.Ok? ==> forall s | s in specs :: s.group in idOf
  {
    for i := 0 to |specs|
      invariant FirstUnknownGroup(t, specs) == FirstUnknownGroup(t, specs[i..])
      invariant forall s | s in specs[..i] :: s.group in idOf
    {
      assert specs[..i + 1] == specs[..i] + [specs[i]];
      assert specs[i..][1..] == specs[i + 1..];
      if specs[i].group !in idOf {
        return Err(UnknownCodeGroup(specs[i].field));
      }
    }
    assert specs[..|specs|] == specs;
    r := Ok(());
  }

  method CheckValues(t: CodeTable, specs: seq<CodeSpec>, idOf: map<GroupCode, Id>, allowed: map<Id, set<string>>)
    returns (r: Result<()>)
    requires forall s | s in specs :: s.group in idOf
    requires forall s | s in specs ::
      exists g | g in t.groups :: g.groupCode == s.group && g.isActive && g.id == idOf[s.group]
    requires forall s, code | s in specs ::
      idOf[s.group] in allowed && code in allowed[idOf[s.group]] <==> Code(idOf[s.group], code, true) in t.codes
    ensures r == FirstBadValue(t, specs)
  {
    for i := 0 to |specs|
      invariant FirstBadValue(t, specs) == FirstBadValue(t, specs[i..])
    {
      var s := specs[i];
      var id := idOf[s.group];
      CodeActiveById(t, s.group, id, s.value);
      assert specs[i..][1..] == specs[i + 1..];
      var verdict := AssertValidCode(s.value, if id in allowed then allowed[id] else {}, s.field);
      if verdict.Err? {
        return verdict;
      }
    }
    r := Ok(());
  }

  /** The batched validation agrees with checking the fields one by one. */
  method ValidateCodes(t: CodeTable, specs: seq<CodeSpec>) returns (r: Result<()>)
    ensures r == Verdict(t, specs)
  {
    if specs == [] {
      return Ok(());
    }
    var wanted := set s | s in specs :: s.group;
    var idOf := LoadGroupIds(t, wanted);
    var _ :- CheckGroups(t, specs, idOf);
    var allowed := LoadAllowedCodes(t, idOf.Values);
    forall s | s in specs ensures idOf[s.group] in idOf.Values {
    }
    r := CheckValues(t, specs, idOf, allowed);
  }
}
