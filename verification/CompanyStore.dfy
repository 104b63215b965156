/** The assign command of the company module, writing status files and symlinks step by step. */
module CompanyStore {
  import opened SeqFilter
  import opened Membership

  datatype Reply = Rejected | Refused | Finished

  class Store {
    const companies: set<Company>
    const animas: set<Anima>
    var status: map<Anima, Company>
    var entries: map<(Company, Anima), Entry>

    function Value(): Disk
      reads this
    {
      Disk(status, entries)
    }

    constructor (companies: set<Company>, animas: set<Anima>)
      ensures Value() == Disk(map[], map[]) && this.companies == companies && this.animas == animas
    {
      this.companies, this.animas := companies, animas;
      status, entries := map[], map[];
    }

    method RemoveMembershipLink(c: Company, a: Anima) returns (ok: bool)
      modifies `entries
      ensures ok <==> !Blocked(old(Value()), c, a)
      ensures Value() == ApplyAll(old(Value()), Removal(old(Value()), c, a))
    {
      ApplyOne(Value(), Unlink(c, a));
      if (c, a) !in entries {
        return true;
      }
      if entries[(c, a)].Plain? {
        return false;
      }
      entries := entries - {(c, a)};
      ok := true;
    }

    method WriteAnimaCompany(a: Anima, company: Target)
      modifies `status
      ensures Value() == Apply(old(Value()), if company.Unassign? then ClearStatus(a) else SetStatus(a, company.company))
    {
      if company.Unassign? {
        status := status - {a};
      } else {
        status := status[a := company.company];
      }
    }

    method UnassignOne(a: Anima) returns (ok: bool)
      modifies `status, `entries
      ensures Value() == ApplyAll(old(Value()), Plan(old(Value()), a, Unassign))
      ensures ok <==> !Refuses(old(Value()), a, Unassign)
    {
      ghost var d := Value();
      if a !in status {
        return true;
      }
      var previous := status[a];
      ok := true;
      if ValidName(previous) {
        ok := RemoveMembershipLink(previous, a);
      }
      if !ok {
        return;
      }
      UnassignPlan(d, Value(), a);
      WriteAnimaCompany(a, Unassign);
    }

    /** Remove the views, write the status, make the new view. */
    method AssignOne(a: Anima, c: Company) returns (ok: bool)
      modifies `status, `entries
      ensures Value() == ApplyAll(old(Value()), Plan(old(Value()), a, AssignTo(c)))
      ensures ok <==> !Refuses(old(Value()), a, AssignTo(c))
    {
      ghost var d := Value();
      if a in status && status[a] == c && (c, a) in entries && entries[(c, a)] == Link(true) {
        return true;
      }
      ok := RemoveMembershipLink(c, a);
      if !ok {
        return;
      }
      ghost var mid := Value();
      if a in status && status[a] != c && ValidName(status[a]) {
        ok := RemoveMembershipLink(status[a], a);
      }
      AssignPlan(d, mid, Value(), a, c);
      if !ok {
        return;
      }
      WriteAnimaCompany(a, AssignTo(c));
      entries := entries[(c, a) := Link(true)];
    }

    method AssignEach(names: seq<Anima>, t: Target) returns (finished: bool)
      modifies `status, `entries
      ensures Value() == ApplyAll(old(Value()), Script(old(Value()), names, t))
      ensures finished <==> Completes(old(Value()), names, t)
    {
      ghost var d := Value();
      var i := 0;
      assert names[0..] == names;
      while i < |names|
        invariant i <= |names|
        invariant ApplyAll(d, Script(d, names, t)) == ApplyAll(Value(), Script(Value(), names[i..], t))
        invariant Completes(d, names, t) <==> Completes(Value(), names[i..], t)
      {
        ghost var before := Value();
        var ok;
        if t.Unassign? {
          ok := UnassignOne(names[i]);
        } else {
          ok := AssignOne(names[i], t.company);
        }
        ScriptStep(before, Value(), names, i, t);
        if !ok {
          return false;
        }
        i := i + 1;
      }
      finished := true;
    }

    method AssignAnimas(names: seq<Anima>, t: Target) returns (reply: Reply)
      modifies `status, `entries
      ensures reply.Rejected? <==> (t.AssignTo? && t.company !in companies) || names == [] || exists a :: a in names && a !in animas
      ensures reply.Rejected? ==> Value() == old(Value())
      ensures !reply.Rejected? ==>
        && Value() == ApplyAll(old(Value()), Script(old(Value()), Dedup(names), t))
        && (reply.Finished? <==> Completes(old(Value()), Dedup(names), t))
    {
      if t.AssignTo? && t.company !in companies {
        return Rejected;
      }
      var unique := Dedup(names);
      DedupMember(names);
      if unique == [] {
        assert names == [] by { assert forall x :: x in names ==> x in unique; }
        return Rejected;
      }
      assert names != [];
      if exists a :: a in unique && a !in animas {
        return Rejected;
      }
      var finished := AssignEach(unique, t);
      reply := if finished then Finished else Refused;
    }
  }

  lemma ScriptStep(before: Disk, after: Disk, names: seq<Anima>, i: nat, t: Target)
    requires i < |names| && after == ApplyAll(before, Plan(before, names[i], t))
    ensures Refuses(before, names[i], t) ==>
      ApplyAll(before, Script(before, names[i..], t)) == after && !Completes(before, names[i..], t)
    ensures !Refuses(before, names[i], t) ==>
      && ApplyAll(before, Script(before, names[i..], t)) == ApplyAll(after, Script(after, names[i + 1..], t))
      && (Completes(before, names[i..], t) <==> Completes(after, names[i + 1..], t))
  {
    assert names[i..][0] == names[i] && names[i..][1..] == names[i + 1..];
    ApplyConcat(before, Plan(before, names[i], t), Script(after, names[i + 1..], t));
  }

  lemma UnassignPlan(d: Disk, e: Disk, a: Anima)
    requires a in d.status && !Refuses(d, a, Unassign)
    requires e == if ValidName(d.status[a]) then ApplyAll(d, Removal(d, d.status[a], a)) else d
    ensures ApplyAll(d, Plan(d, a, Unassign)) == Apply(e, ClearStatus(a))
  {
    ApplyConcat(d, Removals(d, a, Unassign), [ClearStatus(a)]);
    ApplyOne(e, ClearStatus(a));
    if ValidName(d.status[a]) { assert Removals(d, a, Unassign) == Removal(d, d.status[a], a); }
  }

  lemma AssignPlan(d: Disk, mid: Disk, e: Disk, a: Anima, c: Company)
    requires !AlreadyThere(d, a, c) && !Blocked(d, c, a) && mid == ApplyAll(d, Removal(d, c, a))
    requires e == if LeavesOld(d, a, AssignTo(c)) then ApplyAll(mid, Removal(mid, d.status[a], a)) else mid
    ensures mid.status == d.status
    ensures Refuses(d, a, AssignTo(c)) <==> LeavesOld(d, a, AssignTo(c)) && Blocked(mid, d.status[a], a)
    ensures ApplyAll(d, Plan(d, a, AssignTo(c))) ==
      if Refuses(d, a, AssignTo(c)) then e else Apply(Apply(e, SetStatus(a, c)), MakeLink(c, a))
  {
    var t := AssignTo(c);
    RemovalsInTwo(d, mid, e, a, t);
    ApplyOne(d, Unlink(c, a));
    if Refuses(d, a, t) {
      assert Plan(d, a, t) == Removals(d, a, t);
    } else {
      ApplyConcat(d, Removals(d, a, t), [SetStatus(a, c), MakeLink(c, a)]);
      ApplyTwo(e, SetStatus(a, c), MakeLink(c, a));
    }
  }

  lemma RemovalsInTwo(d: Disk, mid: Disk, e: Disk, a: Anima, t: Target)
    requires t.AssignTo? && mid == ApplyAll(d, Removal(d, t.company, a))
    requires e == if LeavesOld(d, a, t) then ApplyAll(mid, Removal(mid, d.status[a], a)) else mid
    ensures e == ApplyAll(d, Removals(d, a, t))
  {
    ApplyOne(d, Unlink(t.company, a));
    var w := if LeavesOld(d, a, t) then Removal(d, d.status[a], a) else [];
    assert LeavesOld(d, a, t) ==> Removal(mid, d.status[a], a) == w;
    ApplyConcat(d, Removal(d, t.company, a), w);
  }
}
