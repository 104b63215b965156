/**
 Company membership: each Anima's status file names its company, and a symlink in the company's
 directory mirrors it. Assigning and unassigning are lists of single writes, and the process may
 die between any two of them.
 */
module Membership {

  type Company = string
  type Anima = string

  /** What sits at companies/<company>/animas/<anima>. */
  datatype Entry = Link(correct: bool) | Plain

  datatype Disk = Disk(status: map<Anima, Company>, entries: map<(Company, Anima), Entry>)

  datatype Write =
    | Unlink(company: Company, anima: Anima)
    | SetStatus(anima: Anima, company: Company)
    | ClearStatus(anima: Anima)
    | MakeLink(company: Company, anima: Anima)

  datatype Target = Unassign | AssignTo(company: Company)

  predicate NameChar(ch: char) { 'a' <= ch <= 'z' || '0' <= ch <= '9' }

  /** Letters and digits, then also hyphens and underscores. */
  predicate ValidName(c: Company) {
    |c| > 0 && NameChar(c[0]) && forall i :: 0 <= i < |c| ==> NameChar(c[i]) || c[i] == '_' || c[i] == '-'
  }

  function Apply(d: Disk, w: Write): Disk {
    match w
    case Unlink(c, a) => d.(entries := d.entries - {(c, a)})
    case SetStatus(a, c) => d.(status := d.status[a := c])
    case ClearStatus(a) => d.(status := d.status - {a})
    case MakeLink(c, a) => d.(entries := d.entries[(c, a) := Link(true)])
  }

  function ApplyAll(d: Disk, ws: seq<Write>): Disk {
    if ws == [] then d else Apply(ApplyAll(d, ws[..|ws| - 1]), ws[|ws| - 1])
  }

  // ---------------------------------------------------------------- the writes of one Anima

  /** Removing an entry is one unlink, nothing, or a refusal when it is not a symlink. */
  function Removal(d: Disk, c: Company, a: Anima): seq<Write> {
    if (c, a) in d.entries && d.entries[(c, a)].Link? then [Unlink(c, a)] else []
  }
  predicate Blocked(d: Disk, c: Company, a: Anima) { (c, a) in d.entries && d.entries[(c, a)].Plain? }

  predicate AlreadyThere(d: Disk, a: Anima, c: Company) {
    a in d.status && d.status[a] == c && (c, a) in d.entries && d.entries[(c, a)] == Link(true)
  }

  /** The old company's view has to go too, unless it is the target or has no managed path. */
  predicate LeavesOld(d: Disk, a: Anima, t: Target) {
    a in d.status && ValidName(d.status[a]) && (t.AssignTo? ==> d.status[a] != t.company)
  }

  function Removals(d: Disk, a: Anima, t: Target): seq<Write> {
    (if t.AssignTo? then Removal(d, t.company, a) else [])
    + (if LeavesOld(d, a, t) then Removal(d, d.status[a], a) else [])
  }

  function Plan(d: Disk, a: Anima, t: Target): seq<Write> {
    match t
    case Unassign =>
      if a !in d.status || Refuses(d, a, t) then []
      else Removals(d, a, t) + [ClearStatus(a)]
    case AssignTo(c) =>
      if AlreadyThere(d, a, c) || Blocked(d, c, a) then []
      else Removals(d, a, t) + (if Refuses(d, a, t) then [] else [SetStatus(a, c), MakeLink(c, a)])
  }

  predicate Refuses(d: Disk, a: Anima, t: Target) {
    && (t.AssignTo? ==> !AlreadyThere(d, a, t.company))
    && ((t.AssignTo? && Blocked(d, t.company, a)) || (LeavesOld(d, a, t) && Blocked(d, d.status[a], a)))
  }

  /** All writes of one command over a list of Animas, up to the first refusal. */
  function Script(d: Disk, names: seq<Anima>, t: Target): seq<Write>
    decreases |names|
  {
    if names == [] then []
    else
      var ws := Plan(d, names[0], t);
      if Refuses(d, names[0], t) then ws else ws + Script(ApplyAll(d, ws), names[1..], t)
  }

  predicate Completes(d: Disk, names: seq<Anima>, t: Target)
    decreases |names|
  {
    names == [] || (!Refuses(d, names[0], t) && Completes(ApplyAll(d, Plan(d, names[0], t)), names[1..], t))
  }

  // ---------------------------------------------------------------- the view never outruns the status

  /** A membership link under c for a implies a's status names c, and c is a managed company. */
  ghost predicate ViewSound(d: Disk) {
    forall c, a :: (c, a) in d.entries && d.entries[(c, a)].Link? ==> ValidName(c) && a in d.status && d.status[a] == c
  }

  lemma {:induction false} ApplyConcat(d: Disk, v: seq<Write>, w: seq<Write>)
    ensures ApplyAll(d, v + w) == ApplyAll(ApplyAll(d, v), w)
  {
    if w == [] {
      assert v + w == v;
    } else {
      assert (v + w)[..|v + w| - 1] == v + w[..|w| - 1];
      ApplyConcat(d, v, w[..|w| - 1]);
    }
  }

  /** The view is sound before, between and after the writes: a crash anywhere leaves it sound. */
  ghost predicate Safe(d: Disk, ws: seq<Write>) {
    forall k :: 0 <= k <= |ws| ==> ViewSound(ApplyAll(d, ws[..k]))
  }

  lemma SafeConcat(d: Disk, v: seq<Write>, w: seq<Write>)
    requires Safe(d, v) && Safe(ApplyAll(d, v), w)
    ensures Safe(d, v + w)
  {
    forall k | 0 <= k <= |v + w| ensures ViewSound(ApplyAll(d, (v + w)[..k])) {
      if k <= |v| {
        assert (v + w)[..k] == v[..k];
      } else {
        assert (v + w)[..k] == v + w[..k - |v|];
        ApplyConcat(d, v, w[..k - |v|]);
      }
    }
  }

  lemma SafeOne(d: Disk, w: Write)
    requires ViewSound(d) && ViewSound(Apply(d, w))
    ensures Safe(d, [w]) && ApplyAll(d, [w]) == Apply(d, w)
  {
    assert [w][..0] == [] && [w][..1] == [w];
  }

  lemma SafeNone(d: Disk)
    requires ViewSound(d)
    ensures Safe(d, [])
  {
    var none: seq<Write> := [];
    assert none[..0] == none;
  }

  /** After the removals nothing links to the Anima any more, and only its own links are touched. */
  predicate Cleared(d: Disk, e: Disk, a: Anima) {
    && e.status == d.status
    && (forall k :: k in e.entries ==> k in d.entries && d.entries[k] == e.entries[k])
    && (forall k :: k in d.entries && (k.1 != a || d.entries[k].Plain?) ==> k in e.entries)
  }
  predicate NoLinks(d: Disk, a: Anima) { forall k :: k in d.entries && k.1 == a ==> d.entries[k].Plain? }

  lemma RemovalSafe(d: Disk, c: Company, a: Anima)
    requires ViewSound(d)
    ensures Safe(d, Removal(d, c, a))
    ensures var e := ApplyAll(d, Removal(d, c, a));
      && Cleared(d, e, a) && ((c, a) in e.entries ==> e.entries[(c, a)].Plain?)
      && (forall k :: k in d.entries && k != (c, a) ==> k in e.entries)
  {
    if Removal(d, c, a) == [] {
      SafeNone(d);
    } else {
      SafeOne(d, Unlink(c, a));
    }
  }

  lemma RemovalsSafe(d: Disk, a: Anima, t: Target)
    requires ViewSound(d)
    ensures Safe(d, Removals(d, a, t))
    ensures var e := ApplyAll(d, Removals(d, a, t)); ViewSound(e) && Cleared(d, e, a) && NoLinks(e, a)
  {
    var v := if t.AssignTo? then Removal(d, t.company, a) else [];
    var w := if LeavesOld(d, a, t) then Removal(d, d.status[a], a) else [];
    SafeNone(d);
    if t.AssignTo? { RemovalSafe(d, t.company, a); }
    var mid := ApplyAll(d, v);
    assert v[..|v|] == v;
    assert w == if LeavesOld(d, a, t) then Removal(mid, d.status[a], a) else [];
    SafeNone(mid);
    if LeavesOld(d, a, t) { RemovalSafe(mid, d.status[a], a); }
    SafeConcat(d, v, w);
    ApplyConcat(d, v, w);
    assert w[..|w|] == w;
  }

  lemma UnassignSafe(d: Disk, a: Anima)
    requires ViewSound(d)
    ensures Safe(d, Removals(d, a, Unassign) + [ClearStatus(a)])
  {
    RemovalsSafe(d, a, Unassign);
    var r := Removals(d, a, Unassign);
    SafeOne(ApplyAll(d, r), ClearStatus(a));
    SafeConcat(d, r, [ClearStatus(a)]);
  }

  lemma AssignSafe(d: Disk, a: Anima, c: Company)
    requires ViewSound(d) && ValidName(c)
    ensures Safe(d, Removals(d, a, AssignTo(c)) + [SetStatus(a, c), MakeLink(c, a)])
  {
    var r := Removals(d, a, AssignTo(c));
    RemovalsSafe(d, a, AssignTo(c));
    var e := ApplyAll(d, r);
    var f := Apply(e, SetStatus(a, c));
    SafeOne(e, SetStatus(a, c));
    SafeOne(f, MakeLink(c, a));
    SafeConcat(e, [SetStatus(a, c)], [MakeLink(c, a)]);
    assert [SetStatus(a, c)] + [MakeLink(c, a)] == [SetStatus(a, c), MakeLink(c, a)];
    SafeConcat(d, r, [SetStatus(a, c), MakeLink(c, a)]);
  }

  lemma PlanSafe(d: Disk, a: Anima, t: Target)
    requires ViewSound(d) && (t.AssignTo? ==> ValidName(t.company))
    ensures Safe(d, Plan(d, a, t)) && ViewSound(ApplyAll(d, Plan(d, a, t)))
  {
    SafeNone(d);
    match t {
      case Unassign => UnassignSafe(d, a);
      case AssignTo(c) =>
        AssignSafe(d, a, c);
        RemovalsSafe(d, a, t);
        assert Removals(d, a, t) + [] == Removals(d, a, t);
    }
    WholePrefix(d, Plan(d, a, t));
  }

  lemma WholePrefix(d: Disk, ws: seq<Write>)
    requires Safe(d, ws)
    ensures ViewSound(ApplyAll(d, ws))
  {
    assert ws[..|ws|] == ws;
  }

  /** Every prefix of the writes of one command keeps the view sound. */
  lemma {:induction false} ScriptSafe(d: Disk, names: seq<Anima>, t: Target)
    requires ViewSound(d) && (t.AssignTo? ==> ValidName(t.company))
    ensures Safe(d, Script(d, names, t))
    decreases |names|
  {
    if names == [] {
      SafeNone(d);
    } else {
      PlanSafe(d, names[0], t);
      var ws := Plan(d, names[0], t);
      ScriptSafe(ApplyAll(d, ws), names[1..], t);
      SafeConcat(d, ws, Script(ApplyAll(d, ws), names[1..], t));
    }
  }

  // ---------------------------------------------------------------- histories with crashes

  /** One command that got `done` of its writes onto disk before it ended or died. */
  datatype Command = Command(names: seq<Anima>, target: Target, done: nat)

  function After(d: Disk, cmd: Command): Disk {
    var ws := Script(d, cmd.names, cmd.target);
    ApplyAll(d, if cmd.done < |ws| then ws[..cmd.done] else ws)
  }

  function AfterAll(d: Disk, history: seq<Command>): Disk {
    if history == [] then d else After(AfterAll(d, history[..|history| - 1]), history[|history| - 1])
  }

  predicate ManagedTargets(history: seq<Command>) {
    forall i :: 0 <= i < |history| && history[i].target.AssignTo? ==> ValidName(history[i].target.company)
  }

  lemma {:induction false} HistorySound(d: Disk, history: seq<Command>)
    requires ViewSound(d) && ManagedTargets(history)
    ensures ViewSound(AfterAll(d, history))
  {
    if history != [] {
      HistorySound(d, history[..|history| - 1]);
      var e := AfterAll(d, history[..|history| - 1]);
      var cmd := history[|history| - 1];
      ScriptSafe(e, cmd.names, cmd.target);
      WholePrefix(e, Script(e, cmd.names, cmd.target));
    }
  }

  /** The Anima is a member of c in both records, and nothing else links to it. */
  predicate MemberExactly(d: Disk, a: Anima, c: Company) {
    && a in d.status && d.status[a] == c
    && (c, a) in d.entries && d.entries[(c, a)] == Link(true)
    && (forall k :: k in d.entries && k.1 == a && d.entries[k].Link? ==> k.0 == c)
  }

  predicate Unaffiliated(d: Disk, a: Anima) { a !in d.status && NoLinks(d, a) }

  predicate Settled(d: Disk, a: Anima, t: Target) {
    match t case Unassign => Unaffiliated(d, a) case AssignTo(c) => MemberExactly(d, a, c)
  }

  lemma PlanSettles(d: Disk, a: Anima, t: Target)
    requires ViewSound(d) && (t.AssignTo? ==> ValidName(t.company)) && !Refuses(d, a, t)
    ensures Settled(ApplyAll(d, Plan(d, a, t)), a, t)
  {
    RemovalsSafe(d, a, t);
    var r := Removals(d, a, t);
    var e := ApplyAll(d, r);
    match t
    case Unassign =>
      if a in d.status {
        ApplyConcat(d, r, [ClearStatus(a)]);
        ApplyOne(e, ClearStatus(a));
      }
    case AssignTo(c) =>
      if !AlreadyThere(d, a, c) {
        ApplyConcat(d, r, [SetStatus(a, c), MakeLink(c, a)]);
        ApplyTwo(e, SetStatus(a, c), MakeLink(c, a));
      }
  }

  lemma ApplyOne(d: Disk, w: Write)
    ensures ApplyAll(d, [w]) == Apply(d, w)
  {
    assert [w][..0] == [];
  }

  lemma ApplyTwo(d: Disk, v: Write, w: Write)
    ensures ApplyAll(d, [v, w]) == Apply(Apply(d, v), w)
  {
    assert [v, w][..1] == [v];
    ApplyOne(d, v);
  }

  /** Writes for one Anima leave every other Anima's records alone. */
  predicate SameFor(d: Disk, e: Disk, a: Anima) {
    && (a in d.status <==> a in e.status) && (a in d.status ==> d.status[a] == e.status[a])
    && (forall k :: k in d.entries && k.1 == a ==> k in e.entries && e.entries[k] == d.entries[k])
    && (forall k :: k in e.entries && k.1 == a ==> k in d.entries)
  }

  predicate Touches(w: Write, a: Anima) { w.anima == a }

  lemma {:induction false} Untouched(d: Disk, ws: seq<Write>, a: Anima)
    requires forall i :: 0 <= i < |ws| ==> !Touches(ws[i], a)
    ensures SameFor(d, ApplyAll(d, ws), a)
  {
    if ws != [] { Untouched(d, ws[..|ws| - 1], a); }
  }

  lemma PlanTouches(d: Disk, a: Anima, t: Target, i: nat)
    requires i < |Plan(d, a, t)|
    ensures Plan(d, a, t)[i].anima == a
  {
  }

  lemma PlanLeavesOthers(d: Disk, a: Anima, t: Target, b: Anima)
    requires b != a
    ensures SameFor(d, ApplyAll(d, Plan(d, a, t)), b)
  {
    forall i | 0 <= i < |Plan(d, a, t)| ensures !Touches(Plan(d, a, t)[i], b) { PlanTouches(d, a, t, i); }
    Untouched(d, Plan(d, a, t), b);
  }

  lemma {:induction false} ScriptSettles(d: Disk, names: seq<Anima>, t: Target, a: Anima)
    requires ViewSound(d) && (t.AssignTo? ==> ValidName(t.company)) && Completes(d, names, t)
    ensures var e := ApplyAll(d, Script(d, names, t));
      && (a in names || Settled(d, a, t) ==> Settled(e, a, t))
      && (a !in names ==> SameFor(d, e, a))
    decreases |names|
  {
    if names == [] {
      Untouched(d, [], a);
    } else {
      var ws := Plan(d, names[0], t);
      var mid := ApplyAll(d, ws);
      PlanSafe(d, names[0], t);
      PlanSettles(d, names[0], t);
      if a != names[0] { PlanLeavesOthers(d, names[0], t, a); }
      ScriptSettles(mid, names[1..], t, a);
      ApplyConcat(d, ws, Script(mid, names[1..], t));
    }
  }

  /**
   From any disk with a sound view, plain files and wrong links included, and after any history of
   completed, refused and crashed commands, one completed assign leaves each named
   Anima with exactly one link, at the assigned company, and its status agreeing; a completed
   unassign leaves neither. Other Animas keep exactly what they had.
   */
  lemma CompletedCommandSettles(d0: Disk, history: seq<Command>, names: seq<Anima>, t: Target, a: Anima)
    requires ViewSound(d0) && ManagedTargets(history) && (t.AssignTo? ==> ValidName(t.company))
    requires Completes(AfterAll(d0, history), names, t)
    ensures var d := AfterAll(d0, history);
      var e := ApplyAll(d, Script(d, names, t));
      && ViewSound(e)
      && (a in names ==> Settled(e, a, t))
      && (a !in names ==> SameFor(d, e, a))
  {
    HistorySound(d0, history);
    var d := AfterAll(d0, history);
    ScriptSettles(d, names, t, a);
    ScriptSafe(d, names, t);
    WholePrefix(d, Script(d, names, t));
  }

  /** A settled Anima needs no writes: running the same command again changes nothing. */
  lemma {:induction false} RerunWritesNothing(d: Disk, names: seq<Anima>, t: Target)
    requires forall i :: 0 <= i < |names| ==> Settled(d, names[i], t)
    ensures Script(d, names, t) == []
  {
    if names != [] {
      assert Settled(d, names[0], t);
      assert Plan(d, names[0], t) == [];
      RerunWritesNothing(d, names[1..], t);
    }
  }

  // ---------------------------------------------------------------- when a command refuses

  predicate PlainAt(d: Disk, c: Company, a: Anima) { (c, a) in d.entries && d.entries[(c, a)] == Plain }

  /**
   An unassign refuses exactly if the status names a valid company and a plain file stands there. An
   assign refuses exactly if the Anima is not there yet and a plain file stands under the new company, or
   under a different valid one that the status names.
   */
  lemma RefusesIff(d: Disk, a: Anima, t: Target)
    ensures t.Unassign? ==> (Refuses(d, a, t) <==> a in d.status && ValidName(d.status[a]) && PlainAt(d, d.status[a], a))
    ensures t.AssignTo? ==>
      var there := a in d.status && d.status[a] == t.company && (t.company, a) in d.entries && d.entries[(t.company, a)] == Link(true);
      var oldOne := a in d.status && d.status[a] != t.company && ValidName(d.status[a]) && PlainAt(d, d.status[a], a);
      (Refuses(d, a, t) <==> !there && (PlainAt(d, t.company, a) || oldOne))
  {
  }

  /** What is refused writes nothing. */
  lemma RefusedWritesNothing(d: Disk, a: Anima, t: Target)
    requires ViewSound(d) && Refuses(d, a, t)
    ensures Plan(d, a, t) == []
  {
  }

  lemma SameRefusal(d: Disk, e: Disk, a: Anima, t: Target)
    requires SameFor(d, e, a)
    ensures Refuses(d, a, t) <==> Refuses(e, a, t)
  {
  }

  lemma SettledNeverRefuses(d: Disk, a: Anima, t: Target)
    requires Settled(d, a, t)
    ensures !Refuses(d, a, t)
  {
  }

  ghost predicate NoneRefused(d: Disk, names: seq<Anima>, t: Target) { forall i :: 0 <= i < |names| ==> !Refuses(d, names[i], t) }

  /** A command completes exactly if none of its Animas is refused on the disk it starts from. */
  lemma {:induction false} CompletesIff(d: Disk, names: seq<Anima>, t: Target)
    requires ViewSound(d) && (t.AssignTo? ==> ValidName(t.company))
    ensures Completes(d, names, t) <==> NoneRefused(d, names, t)
    decreases |names|
  {
    if names != [] && !Refuses(d, names[0], t) {
      var mid, rest := ApplyAll(d, Plan(d, names[0], t)), names[1..];
      PlanSafe(d, names[0], t);
      CompletesIff(mid, rest, t);
      forall i | 0 <= i < |rest| ensures Refuses(mid, rest[i], t) <==> Refuses(d, rest[i], t) { RefusalAfter(d, names[0], t, rest[i]); }
      assert forall i :: 0 < i < |names| ==> names[i] == rest[i - 1];
    }
  }

  lemma RefusalAfter(d: Disk, a: Anima, t: Target, b: Anima)
    requires ViewSound(d) && (t.AssignTo? ==> ValidName(t.company)) && !Refuses(d, a, t)
    ensures Refuses(ApplyAll(d, Plan(d, a, t)), b, t) <==> Refuses(d, b, t)
  {
    var mid := ApplyAll(d, Plan(d, a, t));
    if b == a {
      PlanSettles(d, a, t);
      SettledNeverRefuses(mid, a, t);
    } else {
      PlanLeavesOthers(d, a, t, b);
      SameRefusal(d, mid, b, t);
    }
  }

  /** A command that meets a refusal has done exactly what the Animas before it asked for. */
  lemma {:induction false} RefusalStops(d: Disk, names: seq<Anima>, t: Target, i: nat)
    requires ViewSound(d) && (t.AssignTo? ==> ValidName(t.company))
    requires i < |names| && NoneRefused(d, names[..i], t) && Refuses(d, names[i], t)
    ensures Script(d, names, t) == Script(d, names[..i], t) && Completes(d, names[..i], t)
    decreases i
  {
    CompletesIff(d, names[..i], t);
    if i == 0 {
      RefusedWritesNothing(d, names[0], t);
    } else {
      var rest := names[1..];
      assert names[..i][0] == names[0] && names[..i][1..] == rest[..i - 1];
      var mid := ApplyAll(d, Plan(d, names[0], t));
      PlanSafe(d, names[0], t);
      StillRefused(d, names[0], t, names[..i], rest[..i - 1], names[i], mid);
      RefusalStops(mid, rest, t, i - 1);
    }
  }

  lemma StillRefused(d: Disk, first: Anima, t: Target, names: seq<Anima>, rest: seq<Anima>, last: Anima, mid: Disk)
    requires ViewSound(d) && (t.AssignTo? ==> ValidName(t.company)) && mid == ApplyAll(d, Plan(d, first, t))
    requires names == [first] + rest && NoneRefused(d, names, t) && Refuses(d, last, t)
    ensures NoneRefused(mid, rest, t) && Refuses(mid, last, t)
  {
    assert !Refuses(d, names[0], t);
    forall j | 0 <= j < |rest| ensures !Refuses(mid, rest[j], t) {
      assert rest[j] == names[j + 1];
      RefusalAfter(d, first, t, rest[j]);
    }
    RefusalAfter(d, first, t, last);
  }

  // ---------------------------------------------------------------- plain files

  ghost predicate SamePlain(d: Disk, e: Disk) { forall c, a :: PlainAt(d, c, a) <==> PlainAt(e, c, a) }

  /** A write that neither removes nor covers a plain file. */
  predicate Spares(d: Disk, w: Write) { w.Unlink? || w.MakeLink? ==> !PlainAt(d, w.company, w.anima) }

  lemma {:induction false} WritesSpare(d: Disk, ws: seq<Write>)
    requires forall i :: 0 <= i < |ws| ==> Spares(d, ws[i])
    ensures SamePlain(d, ApplyAll(d, ws))
  {
    if ws != [] { WritesSpare(d, ws[..|ws| - 1]); }
  }

  lemma PlanSpares(d: Disk, a: Anima, t: Target)
    ensures forall i :: 0 <= i < |Plan(d, a, t)| ==> Spares(d, Plan(d, a, t)[i])
  {
    var r := Removals(d, a, t);
    assert forall i :: 0 <= i < |r| ==> Spares(d, r[i]);
  }

  lemma {:induction false} ScriptSpares(d: Disk, names: seq<Anima>, t: Target, i: nat)
    requires i < |Script(d, names, t)|
    ensures Spares(d, Script(d, names, t)[i])
    decreases |names|
  {
    var ws := Plan(d, names[0], t);
    PlanSpares(d, names[0], t);
    if i >= |ws| {
      var mid := ApplyAll(d, ws);
      WritesSpare(d, ws);
      ScriptSpares(mid, names[1..], t, i - |ws|);
    }
  }

  /** No history, crashes included, makes or removes a plain file. */
  lemma {:induction false} HistoryKeepsPlain(d: Disk, history: seq<Command>)
    ensures SamePlain(d, AfterAll(d, history))
  {
    if history != [] {
      var before, cmd := AfterAll(d, history[..|history| - 1]), history[|history| - 1];
      HistoryKeepsPlain(d, history[..|history| - 1]);
      var ws := Script(before, cmd.names, cmd.target);
      forall i | 0 <= i < |ws| ensures Spares(before, ws[i]) { ScriptSpares(before, cmd.names, cmd.target, i); }
      WritesSpare(before, ws);
      if cmd.done < |ws| { WritesSpare(before, ws[..cmd.done]); }
    }
  }

  /**
   Without plain files for the named Animas every command completes, whatever history of commands came
   before and wherever each of them died.
   */
  lemma CommandsAlwaysComplete(d0: Disk, history: seq<Command>, names: seq<Anima>, t: Target)
    requires ViewSound(d0) && ManagedTargets(history) && (t.AssignTo? ==> ValidName(t.company))
    requires forall c, a :: a in names ==> !PlainAt(d0, c, a)
    ensures Completes(AfterAll(d0, history), names, t)
  {
    var d := AfterAll(d0, history);
    HistorySound(d0, history);
    HistoryKeepsPlain(d0, history);
    CompletesIff(d, names, t);
    forall i | 0 <= i < |names| ensures !Refuses(d, names[i], t) {
      RefusesIff(d, names[i], t);
      assert names[i] in names;
      if names[i] in d.status { assert !PlainAt(d0, d.status[names[i]], names[i]); }
      if t.AssignTo? { assert !PlainAt(d0, t.company, names[i]); }
    }
  }
}
