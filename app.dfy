/** The application shell's own logic: folding the checker's report into the
    "all rules hold" badge and the per-program problem lists, collecting the
    legacy free-text people, the one-way `dataLoaded` gate, the people
    migration step and which of the timetable, the loading alert and the
    permission alert are shown. */
module App {
  import opened Common
  import opened Checker
  import Grid

  // ---------------------------------------------------------------------
  // The rules badge

  /** `violations.reduce((acc, curr) => acc && curr.satisfied, acc)`. */
  function SatisfiedFold(vs: seq<Violation>, acc: bool): bool
  {
    if |vs| == 0 then acc else SatisfiedFold(vs[1..], acc && vs[0].satisfied)
  }

  /** Every rule evaluation satisfied and no structural problem. */
  function RulesSatisfied(report: Report): bool
  {
    SatisfiedFold(report.violations, true) && |report.other| == 0
  }

  lemma {:induction false} SatisfiedFoldIff(vs: seq<Violation>, acc: bool)
    ensures SatisfiedFold(vs, acc) <==> acc && forall i :: 0 <= i < |vs| ==> vs[i].satisfied
  {
    if |vs| > 0 {
      SatisfiedFoldIff(vs[1..], acc && vs[0].satisfied);
      assert forall i :: 1 <= i < |vs| ==> vs[i] == vs[1..][i - 1];
    }
  }

  /** The badge is green iff every violation is satisfied and `other` is
      empty. */
  lemma RulesSatisfiedIff(report: Report)
    ensures RulesSatisfied(report) <==>
              (forall i :: 0 <= i < |report.violations| ==> report.violations[i].satisfied) &&
              report.other == []
  {
    SatisfiedFoldIff(report.violations, true);
  }

  /** What the shell keeps of the last check. */
  datatype RuleView = RuleView(violations: seq<Violation>, other: seq<Problem>, satisfied: bool)

  /** The effect that stores a fresh report. The older shell runs it on every
      change; the newer one only once the data has loaded, and otherwise
      keeps what it had. */
  function StoreReport(gated: bool, dataLoaded: bool, previous: RuleView, report: Report): (r: RuleView)
    ensures gated && !dataLoaded ==> r == previous
    ensures !gated || dataLoaded ==>
              && r.violations == report.violations && r.other == report.other
              && (r.satisfied <==> (forall i :: 0 <= i < |report.violations| ==> report.violations[i].satisfied) &&
                                   report.other == [])
  {
    RulesSatisfiedIff(report);
    if gated && !dataLoaded then previous
    else RuleView(report.violations, report.other, RulesSatisfied(report))
  }

  // ---------------------------------------------------------------------
  // Problems per program

  /** An entry of a program's problem list: a rule violation or a structural
      problem. */
  datatype Flagged = RuleEntry(v: Violation) | OtherEntry(p: Problem)

  /** The unsatisfied rule violations of program `k`, in input order. */
  function RuleEntries(vs: seq<Violation>, k: Option<Id>): seq<Flagged>
  {
    if |vs| == 0 then []
    else
      var n := |vs| - 1;
      RuleEntries(vs[..n], k) + (if !vs[n].satisfied && vs[n].program == k then [RuleEntry(vs[n])] else [])
  }

  /** The structural problems of program `k`, in input order. */
  function OtherEntries(ps: seq<Problem>, k: Option<Id>): seq<Flagged>
  {
    if |ps| == 0 then []
    else
      var n := |ps| - 1;
      OtherEntries(ps[..n], k) + (if ps[n].program == k then [OtherEntry(ps[n])] else [])
  }

  /** Program `k`'s rule entries are exactly its unsatisfied violations:
      nothing else is listed, none is missed, and the list is empty iff
      there is none. */
  lemma {:induction false} RuleEntriesExact(vs: seq<Violation>, k: Option<Id>)
    ensures forall e :: e in RuleEntries(vs, k) ==> e.RuleEntry? && e.v in vs && !e.v.satisfied && e.v.program == k
    ensures forall j :: 0 <= j < |vs| && !vs[j].satisfied && vs[j].program == k ==> RuleEntry(vs[j]) in RuleEntries(vs, k)
    ensures RuleEntries(vs, k) == [] <==> forall j :: 0 <= j < |vs| ==> vs[j].satisfied || vs[j].program != k
  {
    if |vs| > 0 {
      var n := |vs| - 1;
      RuleEntriesExact(vs[..n], k);
      assert vs == vs[..n] + [vs[n]];
    }
  }

  /** Program `k`'s other entries are exactly its structural problems. */
  lemma {:induction false} OtherEntriesExact(ps: seq<Problem>, k: Option<Id>)
    ensures forall e :: e in OtherEntries(ps, k) ==> e.OtherEntry? && e.p in ps && e.p.program == k
    ensures forall j :: 0 <= j < |ps| && ps[j].program == k ==> OtherEntry(ps[j]) in OtherEntries(ps, k)
    ensures OtherEntries(ps, k) == [] <==> forall j :: 0 <= j < |ps| ==> ps[j].program != k
  {
    if |ps| > 0 {
      var n := |ps| - 1;
      OtherEntriesExact(ps[..n], k);
      assert ps == ps[..n] + [ps[n]];
    }
  }

  /** The list the shell shows for program `k`: its rule violations first,
      then its structural problems. */
  function Entries(vs: seq<Violation>, ps: seq<Problem>, k: Option<Id>): seq<Flagged>
  {
    RuleEntries(vs, k) + OtherEntries(ps, k)
  }

  lemma RuleEntriesStep(vs: seq<Violation>, i: int)
    requires 0 <= i < |vs|
    ensures forall k :: RuleEntries(vs[..i + 1], k) ==
                        RuleEntries(vs[..i], k) + (if !vs[i].satisfied && vs[i].program == k then [RuleEntry(vs[i])] else [])
  {
    assert vs[..i + 1][..i] == vs[..i];
  }

  lemma OtherEntriesStep(vs: seq<Violation>, ps: seq<Problem>, j: int)
    requires 0 <= j < |ps|
    ensures forall k :: Entries(vs, ps[..j + 1], k) ==
                        Entries(vs, ps[..j], k) + (if ps[j].program == k then [OtherEntry(ps[j])] else [])
  {
    assert ps[..j + 1][..j] == ps[..j];
  }

  /** Pushing the `j`-th problem under its program turns the lists for
      `ps[..j]` into those for `ps[..j + 1]`. */
  lemma ProblemPushed(vs: seq<Violation>, ps: seq<Problem>, j: int,
                      tmp: map<Option<Id>, seq<Flagged>>, r: map<Option<Id>, seq<Flagged>>)
    requires 0 <= j < |ps|
    requires forall k :: k in tmp ==> tmp[k] == Entries(vs, ps[..j], k) != []
    requires forall k :: k !in tmp ==> Entries(vs, ps[..j], k) == []
    requires r.Keys == tmp.Keys + {ps[j].program}
    requires r[ps[j].program] == (if ps[j].program in tmp then tmp[ps[j].program] else []) + [OtherEntry(ps[j])]
    requires forall k :: k in tmp && k != ps[j].program ==> r[k] == tmp[k]
    ensures forall k :: k in r ==> r[k] == Entries(vs, ps[..j + 1], k) != []
    ensures forall k :: k !in r ==> Entries(vs, ps[..j + 1], k) == []
  {
    OtherEntriesStep(vs, ps, j);
  }

  /** Appends `e` to the list under `key`, starting the list if there is
      none yet. */
  method Push(tmp: map<Option<Id>, seq<Flagged>>, key: Option<Id>, e: Flagged) returns (r: map<Option<Id>, seq<Flagged>>)
    ensures r.Keys == tmp.Keys + {key}
    ensures r[key] == (if key in tmp then tmp[key] else []) + [e]
    ensures forall k :: k in tmp && k != key ==> r[k] == tmp[k]
  {
    r := tmp;
    if key !in r {
      r := r[key := []];
    }
    r := r[key := r[key] + [e]];
  }

  /** The first half of `violationsPerProgram`: a list is started for a
      program the first time one of its unsatisfied violations comes along,
      and the violations are appended in input order. */
  method CollectViolations(vs: seq<Violation>) returns (tmp: map<Option<Id>, seq<Flagged>>)
    ensures forall k :: k in tmp <==> RuleEntries(vs, k) != []
    ensures forall k :: k in tmp ==> tmp[k] == RuleEntries(vs, k)
  {
    tmp := map[];
    var i := 0;
    while i < |vs|
      invariant 0 <= i <= |vs|
      invariant forall k :: k in tmp ==> tmp[k] == RuleEntries(vs[..i], k) != []
      invariant forall k :: k !in tmp ==> RuleEntries(vs[..i], k) == []
    {
      RuleEntriesStep(vs, i);
      var v := vs[i];
      if !v.satisfied {
        tmp := Push(tmp, v.program, RuleEntry(v));
      }
      i := i + 1;
    }
    assert vs[..i] == vs;
  }

  /** `violationsPerProgram`: after the violations, every structural problem
      is appended under its program, starting a list where there is none, so
      each program's list is its `Entries`. */
  method ViolationsPerProgram(vs: seq<Violation>, ps: seq<Problem>) returns (tmp: map<Option<Id>, seq<Flagged>>)
    ensures forall k :: k in tmp <==> Entries(vs, ps, k) != []
    ensures forall k :: k in tmp ==> tmp[k] == Entries(vs, ps, k)
  {
    tmp := CollectViolations(vs);
    assert forall k :: Entries(vs, ps[..0], k) == RuleEntries(vs, k);
    var j := 0;
    while j < |ps|
      invariant 0 <= j <= |ps|
      invariant forall k :: k in tmp ==> tmp[k] == Entries(vs, ps[..j], k) != []
      invariant forall k :: k !in tmp ==> Entries(vs, ps[..j], k) == []
    {
      var before := tmp;
      tmp := Push(tmp, ps[j].program, OtherEntry(ps[j]));
      ProblemPushed(vs, ps, j, before, tmp);
      j := j + 1;
    }
    assert ps[..j] == ps;
  }

  /** No satisfied rule evaluation is listed, every entry sits under its own
      program, and no structural problem comes before a rule violation. */
  lemma EntriesShape(vs: seq<Violation>, ps: seq<Problem>, k: Option<Id>)
    ensures forall e :: e in Entries(vs, ps, k) && e.RuleEntry? ==> !e.v.satisfied && e.v.program == k
    ensures forall e :: e in Entries(vs, ps, k) && e.OtherEntry? ==> e.p.program == k
    ensures forall i, j :: 0 <= i < j < |Entries(vs, ps, k)| && Entries(vs, ps, k)[j].RuleEntry? ==>
                             Entries(vs, ps, k)[i].RuleEntry?
  {
    RuleEntriesExact(vs, k);
    OtherEntriesExact(ps, k);
    var e := Entries(vs, ps, k);
    var rules, others := RuleEntries(vs, k), OtherEntries(ps, k);
    assert forall m :: 0 <= m < |rules| ==> e[m] == rules[m] && rules[m] in rules;
    assert forall m :: |rules| <= m < |e| ==> e[m] == others[m - |rules|] && others[m - |rules|] in others;
  }

  /** Every structural problem and every unsatisfied violation is listed
      under its program. */
  lemma EntriesComplete(vs: seq<Violation>, ps: seq<Problem>)
    ensures forall j :: 0 <= j < |ps| ==> OtherEntry(ps[j]) in Entries(vs, ps, ps[j].program)
    ensures forall j :: 0 <= j < |vs| && !vs[j].satisfied ==> RuleEntry(vs[j]) in Entries(vs, ps, vs[j].program)
  {
    forall j | 0 <= j < |ps| ensures OtherEntry(ps[j]) in Entries(vs, ps, ps[j].program) {
      OtherEntriesExact(ps, ps[j].program);
    }
    forall j | 0 <= j < |vs| && !vs[j].satisfied ensures RuleEntry(vs[j]) in Entries(vs, ps, vs[j].program) {
      RuleEntriesExact(vs, vs[j].program);
    }
  }

  /** The badge is green exactly when no program has anything listed. */
  lemma {:induction false} RulesSatisfiedIffNothingListed(report: Report)
    ensures RulesSatisfied(report) <==> forall k :: Entries(report.violations, report.other, k) == []
  {
    var vs, ps := report.violations, report.other;
    RulesSatisfiedIff(report);
    if RulesSatisfied(report) {
      forall k ensures Entries(vs, ps, k) == [] {
        RuleEntriesExact(vs, k);
        OtherEntriesExact(ps, k);
      }
    } else {
      EntriesComplete(vs, ps);
      if ps != [] {
        assert OtherEntry(ps[0]) in Entries(vs, ps, ps[0].program);
      } else {
        var i :| 0 <= i < |vs| && !vs[i].satisfied;
        assert RuleEntry(vs[i]) in Entries(vs, ps, vs[i].program);
      }
    }
  }

  // ---------------------------------------------------------------------
  // Legacy people

  /** The free-text people of the programs, program by program. */
  function NamedPeople(programs: seq<Program>): (r: seq<string>)
    ensures forall x :: x in r <==> exists i :: 0 <= i < |programs| && Named(x) in programs[i].people
  {
    if |programs| == 0 then []
    else
      var n := |programs| - 1;
      var own := NamesIn(programs[n].people);
      var r := NamedPeople(programs[..n]) + own;
      assert forall i :: 0 <= i < n ==> programs[..n][i] == programs[i];
      r
  }

  /** The free-text entries of one people list, in order. */
  function NamesIn(people: seq<Person>): (r: seq<string>)
    ensures forall x :: x in r <==> Named(x) in people
  {
    if |people| == 0 then []
    else
      var n := |people| - 1;
      assert people == people[..n] + [people[n]];
      NamesIn(people[..n]) + (if people[n].Named? then [people[n].name] else [])
  }

  /** `filter` keeps the order: the free-text names of two lists one after
      the other are those of the first list followed by those of the second. */
  lemma {:induction false} NamesInAppend(a: seq<Person>, b: seq<Person>)
    ensures NamesIn(a + b) == NamesIn(a) + NamesIn(b)
  {
    if |b| == 0 {
      assert a + b == a;
    } else {
      var n := |b| - 1;
      var tail := if b[n].Named? then [b[n].name] else [];
      NamesInAppend(a, b[..n]);
      assert (a + b)[..|a + b| - 1] == a + b[..n];
      assert NamesIn(a + b) == NamesIn(a + b[..n]) + tail;
      assert NamesIn(b) == NamesIn(b[..n]) + tail;
    }
  }

  /** A single entry contributes its name exactly when it is free text. */
  lemma NamesInSingle(q: Person)
    ensures NamesIn([q]) == if q.Named? then [q.name] else []
  {
    assert [q][..0] == [];
  }

  /** `flatMap` keeps the order: the names of two program lists one after
      the other are those of the first followed by those of the second. */
  lemma {:induction false} NamedPeopleAppend(ps: seq<Program>, qs: seq<Program>)
    ensures NamedPeople(ps + qs) == NamedPeople(ps) + NamedPeople(qs)
  {
    if |qs| == 0 {
      assert ps + qs == ps;
    } else {
      var n := |qs| - 1;
      var own := NamesIn(qs[n].people);
      NamedPeopleAppend(ps, qs[..n]);
      assert (ps + qs)[..|ps + qs| - 1] == ps + qs[..n];
      assert NamedPeople(ps + qs) == NamedPeople(ps + qs[..n]) + own;
      assert NamedPeople(qs) == NamedPeople(qs[..n]) + own;
    }
  }

  /** One program contributes the free-text names of its people. */
  lemma NamedPeopleSingle(p: Program)
    ensures NamedPeople([p]) == NamesIn(p.people)
  {
    assert [p][..0] == [];
  }

  /** `[...new Set(s)]`: the distinct elements in order of first occurrence. */
  function Distinct(s: seq<string>): (r: seq<string>)
    ensures forall i, j :: 0 <= i < j < |r| ==> r[i] != r[j]
    ensures forall x :: x in r <==> x in s
  {
    if |s| == 0 then []
    else
      var n := |s| - 1;
      assert s == s[..n] + [s[n]];
      var d := Distinct(s[..n]);
      if s[n] in d then d else d + [s[n]]
  }

  /** The first occurrence of `x` in a sequence keeps its position when more
      is appended. */
  lemma {:induction false} FirstIndexKept(p: seq<string>, y: string, x: string)
    requires x in p
    ensures Grid.IndexOf(p + [y], x) == Grid.IndexOf(p, x)
  {
    if p[0] != x {
      assert (p + [y])[1..] == p[1..] + [y];
      assert x in p[1..];
      FirstIndexKept(p[1..], y, x);
    }
  }

  lemma {:induction false} FirstIndexOfNew(p: seq<string>, x: string)
    requires x !in p
    ensures Grid.IndexOf(p + [x], x) == |p|
  {
    if |p| > 0 {
      assert (p + [x])[1..] == p[1..] + [x];
      FirstIndexOfNew(p[1..], x);
    }
  }

  /** The distinct elements come in the order of their first occurrences. */
  lemma {:induction false} DistinctInFirstOccurrenceOrder(s: seq<string>)
    ensures forall i, j :: 0 <= i < j < |Distinct(s)| ==>
                           0 <= Grid.IndexOf(s, Distinct(s)[i]) < Grid.IndexOf(s, Distinct(s)[j])
  {
    if |s| > 0 {
      var n := |s| - 1;
      var p := s[..n];
      assert s == p + [s[n]];
      DistinctInFirstOccurrenceOrder(p);
      var d := Distinct(p);
      forall x | x in d ensures Grid.IndexOf(s, x) == Grid.IndexOf(p, x) {
        FirstIndexKept(p, s[n], x);
      }
      var r := Distinct(s);
      assert r == if s[n] in d then d else d + [s[n]];
      if s[n] !in d {
        FirstIndexOfNew(p, s[n]);
      }
      forall i, j | 0 <= i < j < |r| ensures 0 <= Grid.IndexOf(s, r[i]) < Grid.IndexOf(s, r[j]) {
        assert r[i] == d[i] && d[i] in d;
        assert Grid.IndexOf(s, r[i]) == Grid.IndexOf(p, d[i]);
        assert 0 <= Grid.IndexOf(p, d[i]) < |p|;
        if j < |d| {
          assert r[j] == d[j] && d[j] in d;
          assert Grid.IndexOf(p, d[i]) < Grid.IndexOf(p, d[j]);
        } else {
          assert Grid.IndexOf(s, r[j]) == |p|;
        }
      }
    } else {
      assert Distinct(s) == [];
    }
  }

  /** The legacy people: every free-text person of any program, once each,
      in order of first appearance; `{person}` references are dropped. */
  function LegacyPeople(programs: seq<Program>): (r: seq<string>)
    ensures forall i, j :: 0 <= i < j < |r| ==> r[i] != r[j]
    ensures forall x :: x in r <==> exists i :: 0 <= i < |programs| && Named(x) in programs[i].people
  {
    Distinct(NamedPeople(programs))
  }

  /** The legacy people come in order of first appearance: of two listed
      names, the earlier one occurs first in the programs' free-text people
      read program by program (`NamedPeopleAppend`). */
  lemma LegacyPeopleInFirstAppearanceOrder(programs: seq<Program>)
    ensures forall i, j :: 0 <= i < j < |LegacyPeople(programs)| ==>
              0 <= Grid.IndexOf(NamedPeople(programs), LegacyPeople(programs)[i]) <
                   Grid.IndexOf(NamedPeople(programs), LegacyPeople(programs)[j])
  {
    DistinctInFirstOccurrenceOrder(NamedPeople(programs));
  }

  // ---------------------------------------------------------------------
  // The data-loaded gate

  /** Access levels in increasing order; the level table itself is not part
      of this model, only its order is used. */
  const NONE: int := 0
  const VIEW: int := 1
  const EDIT: int := 2
  const ADMIN: int := 3

  /** The loaded flags of the seven collections and the permission state,
      as one render of the shell sees them. */
  datatype Observation = Observation(
    programs: bool, ranges: bool, groups: bool, packages: bool,
    rules: bool, people: bool, settings: bool,
    permissionsLoaded: bool, userLevel: int)

  /** The older shell (`frontend/`) and the newer one (`src/`). */
  datatype Shell = Legacy | Current

  predicate AllLoaded(o: Observation)
  {
    o.programs && o.ranges && o.groups && o.packages && o.rules && o.people && o.settings
  }

  /** The condition under which the effect sets `dataLoaded`; the newer
      shell also opens for a user without access once permissions are in. */
  predicate Opens(shell: Shell, o: Observation)
  {
    match shell
    case Legacy => AllLoaded(o)
    case Current => (o.permissionsLoaded && o.userLevel == NONE) || AllLoaded(o)
  }

  /** The flag after one run of the effect. */
  function GateStep(shell: Shell, loaded: bool, o: Observation): bool
  {
    if Opens(shell, o) then true else loaded
  }

  function GateRun(shell: Shell, loaded: bool, obs: seq<Observation>): bool
    decreases |obs|
  {
    if |obs| == 0 then loaded else GateRun(shell, GateStep(shell, loaded, obs[0]), obs[1..])
  }

  /** The flag is set after a sequence of renders iff it was set before or
      some render saw the opening condition: it never goes back to false,
      and it never opens without that condition. */
  lemma {:induction false} GateRunIff(shell: Shell, loaded: bool, obs: seq<Observation>)
    ensures GateRun(shell, loaded, obs) <==> loaded || exists i :: 0 <= i < |obs| && Opens(shell, obs[i])
    decreases |obs|
  {
    if |obs| > 0 {
      GateRunIff(shell, GateStep(shell, loaded, obs[0]), obs[1..]);
      if exists i :: 0 <= i < |obs| && Opens(shell, obs[i]) {
        var i :| 0 <= i < |obs| && Opens(shell, obs[i]);
        if i > 0 {
          assert Opens(shell, obs[1..][i - 1]);
        }
      }
      if exists i :: 0 <= i < |obs[1..]| && Opens(shell, obs[1..][i]) {
        var i :| 0 <= i < |obs[1..]| && Opens(shell, obs[1..][i]);
        assert Opens(shell, obs[i + 1]);
      }
    }
  }

  /** The newer shell opens whenever the older one does, and also for a user
      without access before any collection has loaded. */
  lemma CurrentOpensEarlier(o: Observation)
    ensures Opens(Legacy, o) ==> Opens(Current, o)
    ensures o.permissionsLoaded && o.userLevel == NONE ==> Opens(Current, o)
  {
  }

  /** The `dataLoaded` state of the shell, set by its effect. */
  class DataLoaded {
    var loaded: bool

    constructor ()
      ensures !loaded
    {
      loaded := false;
    }

    method Observe(shell: Shell, o: Observation)
      modifies this
      ensures loaded == GateStep(shell, old(loaded), o)
      ensures old(loaded) ==> loaded
    {
      if Opens(shell, o) {
        loaded := true;
      }
    }
  }

  // ---------------------------------------------------------------------
  // People migration

  datatype MigrationState = Idle | FinishedPeople | FinishedPrograms | FailedPeople | FailedPrograms | Migrating

  datatype MigrationAction = MigratePeople | MigratePrograms | MarkFailedPeople | NoAction

  /** What the older shell's effect starts, given whether migration is
      enabled, whether the data has loaded and the migration state. */
  function MigrationStep(peopleMigration: bool, dataLoaded: bool, state: MigrationState): (r: MigrationAction)
    ensures !dataLoaded ==> r == NoAction
    ensures r == MigratePeople <==> peopleMigration && dataLoaded && state == Idle
    ensures r == MigratePrograms <==> peopleMigration && dataLoaded && state == FinishedPeople
    ensures r == MarkFailedPeople <==> !peopleMigration && dataLoaded
  {
    if peopleMigration && dataLoaded && state == Idle then MigratePeople
    else if peopleMigration && dataLoaded && state == FinishedPeople then MigratePrograms
    else if !peopleMigration && dataLoaded then MarkFailedPeople
    else NoAction
  }

  /** A migration state at which the older shell shows the timetable. */
  predicate MigrationSettled(state: MigrationState)
  {
    state == FinishedPrograms || state == FailedPrograms || state == FailedPeople
  }

  // ---------------------------------------------------------------------
  // What is shown

  predicate ShowTimetable(shell: Shell, userLevel: int, dataLoaded: bool, state: MigrationState)
  {
    match shell
    case Legacy => userLevel >= VIEW && dataLoaded && MigrationSettled(state)
    case Current => userLevel >= VIEW && dataLoaded
  }

  predicate ShowLoadingAlert(shell: Shell, dataLoaded: bool, state: MigrationState)
  {
    match shell
    case Legacy => !dataLoaded || !MigrationSettled(state)
    case Current => !dataLoaded
  }

  predicate ShowPermissionAlert(userLevel: int, dataLoaded: bool)
  {
    userLevel == NONE && dataLoaded
  }

  /** The newer shell's `TimetableWrapper` shows exactly one of the
      timetable, the loading alert and the permission alert. */
  lemma {:induction false} WrapperShowsExactlyOne(userLevel: int, dataLoaded: bool, state: MigrationState)
    requires NONE <= userLevel
    ensures var t, l, p := ShowTimetable(Current, userLevel, dataLoaded, state),
                           ShowLoadingAlert(Current, dataLoaded, state),
                           ShowPermissionAlert(userLevel, dataLoaded);
            (t || l || p) && !(t && l) && !(t && p) && !(l && p)
  {
  }

  /** In the older shell the timetable and the loading alert never show
      together, and with migration disabled, once the data has loaded and the
      migration step has run, a viewer sees the timetable. */
  lemma LegacyTimetableAfterMigrationStep(userLevel: int, state: MigrationState)
    requires userLevel >= VIEW
    ensures !(ShowTimetable(Legacy, userLevel, true, state) && ShowLoadingAlert(Legacy, true, state))
    ensures MigrationStep(false, true, state) == MarkFailedPeople
    ensures ShowTimetable(Legacy, userLevel, true, FailedPeople)
  {
  }
}
