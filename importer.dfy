/** Importing an exported timetable into a fresh one: every group, package,
    range and person is added anew and receives a new id from the server,
    and the programs are added with their references translated from the old
    ids to the new ones. The server round trips are outside the model: the
    ids it hands back are a parameter. */
module Importer {
  import opened Common

  /** A group, package, range or person record; its fields other than `_id`
      are carried as opaque data. */
  datatype Entity = Entity(id: Id, fields: map<string, string>)

  /** The exported data. */
  datatype Data = Data(
    programs: seq<Program>,
    pkgs: seq<Entity>,
    groups: seq<Entity>,
    ranges: seq<Entity>,
    people: seq<Entity>,
    settings: map<string, string>)

  /** The `_id` the server gives each added record, in the order of the
      `add*` calls of each kind. */
  datatype NewIds = NewIds(pkgs: seq<Id>, groups: seq<Id>, ranges: seq<Id>, people: seq<Id>)

  /** The arguments of the client calls, per kind and in call order. */
  datatype Calls = Calls(
    settings: map<string, string>,
    pkgs: seq<Entity>,
    groups: seq<Entity>,
    ranges: seq<Entity>,
    people: seq<Entity>,
    programs: seq<Program>)

  /** The old-to-new id translation of each kind of reference. */
  datatype IdMaps = IdMaps(pkgs: map<Id, Id>, groups: map<Id, Id>, ranges: map<Id, Id>, people: map<Id, Id>)

  predicate Matches(data: Data, issued: NewIds)
  {
    |issued.pkgs| == |data.pkgs| && |issued.groups| == |data.groups| &&
    |issued.ranges| == |data.ranges| && |issued.people| == |data.people|
  }

  function Ids(es: seq<Entity>): (ids: seq<Id>)
    ensures |ids| == |es| && forall i :: 0 <= i < |es| ==> ids[i] == es[i].id
  {
    seq(|es|, i requires 0 <= i < |es| => es[i].id)
  }

  /** The map filled call by call: old id `olds[i]` to new id `news[i]`, a
      later entry overriding an earlier one with the same old id. */
  function IdMap(olds: seq<Id>, news: seq<Id>): map<Id, Id>
    requires |olds| == |news|
  {
    if |olds| == 0 then map[]
    else IdMap(olds[..|olds| - 1], news[..|news| - 1])[olds[|olds| - 1] := news[|news| - 1]]
  }

  predicate NoRepeats(s: seq<Id>)
  {
    forall i, j :: 0 <= i < j < |s| ==> s[i] != s[j]
  }

  /** The map knows exactly the old ids. */
  lemma {:induction false} IdMapKeys(olds: seq<Id>, news: seq<Id>, x: Id)
    requires |olds| == |news|
    ensures x in IdMap(olds, news) <==> x in olds
  {
    if |olds| > 0 {
      var n := |olds| - 1;
      IdMapKeys(olds[..n], news[..n], x);
      assert olds == olds[..n] + [olds[n]];
    }
  }

  /** With distinct old ids, the `i`-th old id is translated to the `i`-th
      new id. */
  lemma {:induction false} IdMapAt(olds: seq<Id>, news: seq<Id>, i: int)
    requires |olds| == |news| && NoRepeats(olds) && 0 <= i < |olds|
    ensures olds[i] in IdMap(olds, news) && IdMap(olds, news)[olds[i]] == news[i]
  {
    var n := |olds| - 1;
    if i < n {
      IdMapAt(olds[..n], news[..n], i);
    }
  }

  /** Zipping the other way round undoes the translation when both id lists
      are free of repeats. */
  lemma IdMapInverse(olds: seq<Id>, news: seq<Id>, i: int)
    requires |olds| == |news| && NoRepeats(olds) && NoRepeats(news) && 0 <= i < |olds|
    ensures olds[i] in IdMap(olds, news) && IdMap(olds, news)[olds[i]] in IdMap(news, olds)
    ensures IdMap(news, olds)[IdMap(olds, news)[olds[i]]] == olds[i]
  {
    IdMapAt(olds, news, i);
    IdMapAt(news, olds, i);
  }

  /** Fills one old-to-new map, one `add*` response at a time. */
  method BuildIdMap(entities: seq<Entity>, newIds: seq<Id>) returns (m: map<Id, Id>)
    requires |newIds| == |entities|
    ensures m == IdMap(Ids(entities), newIds)
  {
    m := map[];
    var i := 0;
    while i < |entities|
      invariant 0 <= i <= |entities|
      invariant m == IdMap(Ids(entities)[..i], newIds[..i])
    {
      assert Ids(entities)[..i + 1][..i] == Ids(entities)[..i];
      assert newIds[..i + 1][..i] == newIds[..i];
      m := m[entities[i].id := newIds[i]];
      i := i + 1;
    }
    assert Ids(entities)[..i] == Ids(entities);
    assert newIds[..i] == newIds;
  }

  /** A reference the map does not know is kept as it is. */
  function Rename(m: map<Id, Id>, x: Id): Id
  {
    if x in m then m[x] else x
  }

  function RenamePerson(m: map<Id, Id>, p: Person): Person
  {
    match p
    case Named(_) => p
    case Ref(id) => Ref(Rename(m, id))
  }

  /** The program passed to `addProgram`: its group ids translated in
      order, its package translated, its range keys renamed with their values
      kept, its `{person}` references translated and its free-text people
      left alone. Nothing else about the program changes. */
  function Translate(p: Program, maps: IdMaps): (r: Program)
    ensures r.(groups := p.groups, pkg := p.pkg, ranges := p.ranges, people := p.people) == p
    ensures |r.groups| == |p.groups| && |r.ranges| == |p.ranges| && |r.people| == |p.people|
    ensures r.pkg.None? <==> p.pkg.None?
    ensures forall i :: 0 <= i < |p.ranges| ==> r.ranges[i].1 == p.ranges[i].1
    ensures forall i :: 0 <= i < |p.people| ==> (p.people[i].Named? <==> r.people[i].Named?)
    ensures forall i :: 0 <= i < |p.people| && p.people[i].Named? ==> r.people[i] == p.people[i]
  {
    p.(groups := seq(|p.groups|, i requires 0 <= i < |p.groups| => Rename(maps.groups, p.groups[i])),
       pkg := if p.pkg.Some? then Some(Rename(maps.pkgs, p.pkg.value)) else None,
       ranges := seq(|p.ranges|, i requires 0 <= i < |p.ranges| => (Rename(maps.ranges, p.ranges[i].0), p.ranges[i].1)),
       people := seq(|p.people|, i requires 0 <= i < |p.people| => RenamePerson(maps.people, p.people[i])))
  }

  /** The maps the import builds from the exported records and the ids the
      server hands back. */
  function ImportMaps(data: Data, issued: NewIds): IdMaps
    requires Matches(data, issued)
  {
    IdMaps(IdMap(Ids(data.pkgs), issued.pkgs), IdMap(Ids(data.groups), issued.groups),
           IdMap(Ids(data.ranges), issued.ranges), IdMap(Ids(data.people), issued.people))
  }

  /** What the import asks of the client: settings and every record as they
      are, and every program translated through the maps. */
  function ImportSpec(data: Data, issued: NewIds): (c: Calls)
    requires Matches(data, issued)
    ensures |c.programs| == |data.programs|
  {
    var maps := ImportMaps(data, issued);
    Calls(data.settings, data.pkgs, data.groups, data.ranges, data.people,
          seq(|data.programs|, i requires 0 <= i < |data.programs| => Translate(data.programs[i], maps)))
  }

  /** `importData`: builds the four maps response by response, then
      translates the programs one by one. */
  method ImportData(data: Data, issued: NewIds) returns (calls: Calls)
    requires Matches(data, issued)
    ensures calls == ImportSpec(data, issued)
  {
    var pkgs := BuildIdMap(data.pkgs, issued.pkgs);
    var groups := BuildIdMap(data.groups, issued.groups);
    var ranges := BuildIdMap(data.ranges, issued.ranges);
    var people := BuildIdMap(data.people, issued.people);
    var maps := IdMaps(pkgs, groups, ranges, people);
    var programs: seq<Program> := [];
    var i := 0;
    while i < |data.programs|
      invariant 0 <= i <= |data.programs|
      invariant |programs| == i
      invariant forall k :: 0 <= k < i ==> programs[k] == Translate(data.programs[k], maps)
    {
      programs := programs + [Translate(data.programs[i], maps)];
      i := i + 1;
    }
    calls := Calls(data.settings, data.pkgs, data.groups, data.ranges, data.people, programs);
  }

  /** Old ids of the four kinds free of repeats. */
  predicate DistinctOldIds(data: Data)
  {
    NoRepeats(Ids(data.pkgs)) && NoRepeats(Ids(data.groups)) && NoRepeats(Ids(data.ranges)) && NoRepeats(Ids(data.people))
  }

  /** The point of the import: every reference to an exported record becomes
      the id the server issued for that record, and a reference to no
      exported record is kept as it is. */
  lemma TranslateToIssued(p: Program, data: Data, issued: NewIds)
    requires Matches(data, issued) && DistinctOldIds(data)
    ensures var r := Translate(p, ImportMaps(data, issued));
            forall i, j :: 0 <= i < |p.groups| && 0 <= j < |data.groups| && p.groups[i] == data.groups[j].id ==>
                             r.groups[i] == issued.groups[j]
    ensures var r := Translate(p, ImportMaps(data, issued));
            forall j :: 0 <= j < |data.pkgs| && p.pkg == Some(data.pkgs[j].id) ==> r.pkg == Some(issued.pkgs[j])
    ensures var r := Translate(p, ImportMaps(data, issued));
            forall i, j :: 0 <= i < |p.ranges| && 0 <= j < |data.ranges| && p.ranges[i].0 == data.ranges[j].id ==>
                             r.ranges[i] == (issued.ranges[j], p.ranges[i].1)
    ensures var r := Translate(p, ImportMaps(data, issued));
            forall i, j :: 0 <= i < |p.people| && 0 <= j < |data.people| && p.people[i] == Ref(data.people[j].id) ==>
                             r.people[i] == Ref(issued.people[j])
    ensures var r := Translate(p, ImportMaps(data, issued));
            forall i :: 0 <= i < |p.groups| && p.groups[i] !in Ids(data.groups) ==> r.groups[i] == p.groups[i]
    ensures var r := Translate(p, ImportMaps(data, issued));
            forall i :: 0 <= i < |p.people| && p.people[i].Ref? && p.people[i].person !in Ids(data.people) ==>
                          r.people[i] == p.people[i]
  {
    var maps := ImportMaps(data, issued);
    forall j | 0 <= j < |data.groups| ensures Rename(maps.groups, data.groups[j].id) == issued.groups[j] {
      IdMapAt(Ids(data.groups), issued.groups, j);
    }
    forall j | 0 <= j < |data.pkgs| ensures Rename(maps.pkgs, data.pkgs[j].id) == issued.pkgs[j] {
      IdMapAt(Ids(data.pkgs), issued.pkgs, j);
    }
    forall j | 0 <= j < |data.ranges| ensures Rename(maps.ranges, data.ranges[j].id) == issued.ranges[j] {
      IdMapAt(Ids(data.ranges), issued.ranges, j);
    }
    forall j | 0 <= j < |data.people| ensures Rename(maps.people, data.people[j].id) == issued.people[j] {
      IdMapAt(Ids(data.people), issued.people, j);
    }
    forall x | x !in Ids(data.groups) ensures x !in maps.groups {
      IdMapKeys(Ids(data.groups), issued.groups, x);
    }
    forall x | x !in Ids(data.people) ensures x !in maps.people {
      IdMapKeys(Ids(data.people), issued.people, x);
    }
  }

  /** Every reference of the program names a record of the export. */
  ghost predicate Resolved(p: Program, data: Data)
  {
    && (forall g :: g in p.groups ==> g in Ids(data.groups))
    && (p.pkg.Some? ==> p.pkg.value in Ids(data.pkgs))
    && (forall e :: e in p.ranges ==> e.0 in Ids(data.ranges))
    && (forall q :: q in p.people && q.Ref? ==> q.person in Ids(data.people))
  }

  /** All four kinds of id free of repeats, old and new alike. */
  predicate DistinctIds(data: Data, issued: NewIds)
  {
    && DistinctOldIds(data)
    && NoRepeats(issued.pkgs) && NoRepeats(issued.groups) && NoRepeats(issued.ranges) && NoRepeats(issued.people)
  }

  /** The maps the other way round: new ids back to old ones. */
  function ReverseMaps(data: Data, issued: NewIds): IdMaps
    requires Matches(data, issued)
  {
    IdMaps(IdMap(issued.pkgs, Ids(data.pkgs)), IdMap(issued.groups, Ids(data.groups)),
           IdMap(issued.ranges, Ids(data.ranges)), IdMap(issued.people, Ids(data.people)))
  }

  lemma RenameBack(olds: seq<Id>, news: seq<Id>, x: Id)
    requires |olds| == |news| && NoRepeats(olds) && NoRepeats(news) && x in olds
    ensures Rename(IdMap(news, olds), Rename(IdMap(olds, news), x)) == x
  {
    var i :| 0 <= i < |olds| && olds[i] == x;
    IdMapInverse(olds, news, i);
    assert Rename(IdMap(olds, news), x) == IdMap(olds, news)[olds[i]];
  }

  /** Translation loses nothing: translating an imported program back with
      the reversed maps gives the exported program again. */
  lemma {:induction false} TranslateRoundTrip(p: Program, data: Data, issued: NewIds)
    requires Matches(data, issued) && DistinctIds(data, issued) && Resolved(p, data)
    ensures Translate(Translate(p, ImportMaps(data, issued)), ReverseMaps(data, issued)) == p
  {
    var there := ImportMaps(data, issued);
    var back := ReverseMaps(data, issued);
    var r := Translate(Translate(p, there), back);
    forall i | 0 <= i < |p.groups| ensures r.groups[i] == p.groups[i] {
      RenameBack(Ids(data.groups), issued.groups, p.groups[i]);
    }
    if p.pkg.Some? {
      RenameBack(Ids(data.pkgs), issued.pkgs, p.pkg.value);
    }
    forall i | 0 <= i < |p.ranges| ensures r.ranges[i] == p.ranges[i] {
      assert p.ranges[i] in p.ranges;
      RenameBack(Ids(data.ranges), issued.ranges, p.ranges[i].0);
    }
    forall i | 0 <= i < |p.people| ensures r.people[i] == p.people[i] {
      assert p.people[i] in p.people;
      if p.people[i].Ref? {
        RenameBack(Ids(data.people), issued.people, p.people[i].person);
      }
    }
  }

  /** A program without references is added unchanged. */
  lemma NoReferencesUnchanged(p: Program, maps: IdMaps)
    requires p.groups == [] && p.pkg.None? && p.ranges == []
    requires forall q :: q in p.people ==> q.Named?
    ensures Translate(p, maps) == p
  {
    var r := Translate(p, maps);
    assert r.people == p.people by {
      forall i | 0 <= i < |p.people| ensures r.people[i] == p.people[i] {
        assert p.people[i] in p.people;
      }
    }
  }

  // The cases of the import test suite.

  function Exported(groups: seq<Id>, pkg: Option<Id>, ranges: seq<(Id, int)>, people: seq<Person>): Program
  {
    Program(Some("program1"), None, 0, groups, people, None, pkg, ranges, "Program 1", "table1", false)
  }

  function Rec(id: Id): Entity
  {
    Entity(id, map["table" := "table1"])
  }

  const Empty := Data([], [], [], [], [], map[])

  lemma ImportEmpty()
    ensures ImportSpec(Empty, NewIds([], [], [], [])).settings == map[]
    ensures ImportSpec(Empty, NewIds([], [], [], [])).programs == []
  {
  }

  lemma ImportSingleProgram()
    ensures var data := Empty.(programs := [Exported([], None, [], [])]);
            ImportSpec(data, NewIds([], [], [], [])).programs == data.programs
  {
    var data := Empty.(programs := [Exported([], None, [], [])]);
    NoReferencesUnchanged(data.programs[0], ImportMaps(data, NewIds([], [], [], [])));
  }

  lemma ImportProgramWithGroups()
    ensures var data := Empty.(programs := [Exported(["group1", "group2"], None, [], [])],
                               groups := [Rec("group1"), Rec("group2")]);
            var calls := ImportSpec(data, NewIds([], ["group1_new", "group2_new"], [], []));
            && calls.groups == data.groups
            && calls.programs == [data.programs[0].(groups := ["group1_new", "group2_new"])]
  {
    var data := Empty.(programs := [Exported(["group1", "group2"], None, [], [])],
                       groups := [Rec("group1"), Rec("group2")]);
    var news := ["group1_new", "group2_new"];
    assert Ids(data.groups) == ["group1", "group2"];
    IdMapAt(Ids(data.groups), news, 0);
    IdMapAt(Ids(data.groups), news, 1);
    var maps := ImportMaps(data, NewIds([], news, [], []));
    assert Translate(data.programs[0], maps).groups == news;
  }

  lemma ImportProgramWithPackage()
    ensures var data := Empty.(programs := [Exported([], Some("pkg1"), [], [])], pkgs := [Rec("pkg1")]);
            var calls := ImportSpec(data, NewIds(["pkg1_new"], [], [], []));
            && calls.pkgs == data.pkgs
            && calls.programs == [data.programs[0].(pkg := Some("pkg1_new"))]
  {
  }

  lemma ImportProgramWithRanges()
    ensures var data := Empty.(programs := [Exported([], None, [("range1", 42), ("range2", 23)], [])],
                               ranges := [Rec("range1"), Rec("range2")]);
            var calls := ImportSpec(data, NewIds([], [], ["range1_new", "range2_new"], []));
            && calls.ranges == data.ranges
            && calls.programs == [data.programs[0].(ranges := [("range1_new", 42), ("range2_new", 23)])]
  {
    var data := Empty.(programs := [Exported([], None, [("range1", 42), ("range2", 23)], [])],
                       ranges := [Rec("range1"), Rec("range2")]);
    var news := ["range1_new", "range2_new"];
    assert Ids(data.ranges) == ["range1", "range2"];
    IdMapAt(Ids(data.ranges), news, 0);
    IdMapAt(Ids(data.ranges), news, 1);
    var maps := ImportMaps(data, NewIds([], [], news, []));
    assert Translate(data.programs[0], maps).ranges == [("range1_new", 42), ("range2_new", 23)];
  }

  lemma ImportProgramWithMixedPeople()
    ensures var data := Empty.(programs := [Exported([], None, [], [Ref("person1"), Named("Person 2")])],
                               people := [Rec("person1")]);
            var calls := ImportSpec(data, NewIds([], [], [], ["person1_new"]));
            && calls.people == data.people
            && calls.programs == [data.programs[0].(people := [Ref("person1_new"), Named("Person 2")])]
  {
    var data := Empty.(programs := [Exported([], None, [], [Ref("person1"), Named("Person 2")])],
                       people := [Rec("person1")]);
    var maps := ImportMaps(data, NewIds([], [], [], ["person1_new"]));
    assert Ids(data.people) == ["person1"];
    IdMapAt(Ids(data.people), ["person1_new"], 0);
    assert Translate(data.programs[0], maps).people == [Ref("person1_new"), Named("Person 2")];
  }

  lemma ImportProgramWithObjectPeople()
    ensures var data := Empty.(programs := [Exported([], None, [], [Ref("person1"), Ref("person2")])],
                               people := [Rec("person1"), Rec("person2")]);
            var calls := ImportSpec(data, NewIds([], [], [], ["person1_new", "person2_new"]));
            && calls.people == data.people
            && calls.programs == [data.programs[0].(people := [Ref("person1_new"), Ref("person2_new")])]
  {
    var data := Empty.(programs := [Exported([], None, [], [Ref("person1"), Ref("person2")])],
                       people := [Rec("person1"), Rec("person2")]);
    var news := ["person1_new", "person2_new"];
    var maps := ImportMaps(data, NewIds([], [], [], news));
    assert Ids(data.people) == ["person1", "person2"];
    IdMapAt(Ids(data.people), news, 0);
    IdMapAt(Ids(data.people), news, 1);
    assert Translate(data.programs[0], maps).people == [Ref("person1_new"), Ref("person2_new")];
  }

  lemma ImportProgramWithStringPeople()
    ensures var data := Empty.(programs := [Exported([], None, [], [Named("Person 1"), Named("Person 2")])],
                               people := [Rec("person1"), Rec("person2")]);
            var calls := ImportSpec(data, NewIds([], [], [], ["person1_new", "person2_new"]));
            && calls.people == data.people
            && calls.programs == data.programs
  {
    var data := Empty.(programs := [Exported([], None, [], [Named("Person 1"), Named("Person 2")])],
                       people := [Rec("person1"), Rec("person2")]);
    NoReferencesUnchanged(data.programs[0], ImportMaps(data, NewIds([], [], [], ["person1_new", "person2_new"])));
  }
}
