/**
 `_permission_index_sources`: the members of every generated forum index, put together from the
 exports and from what was saved, and refused when the sources contradict each other.
 */
module IndexSources {
  import opened Common

  /** What a source channel's export says about it. */
  datatype SourceExport = SourceExport(id: string, isThread: bool, channelType: int, parentName: string)

  datatype Saved = Saved(
    channelMap: map<string, string>,
    channelCategories: map<string, string>,
    forumCategoryNames: set<string>,
    forumMembers: map<string, seq<string>>
  )

  const FORUM: string := "forum-"
  const INDEX: string := "forum-index-"

  /** A Discord id: one to twenty decimal digits. */
  predicate IsId(s: string) {
    1 <= |s| <= 20 && forall c :: c in s ==> '0' <= c <= '9'
  }

  /** The group of a forum post; forums are channel types 15 and 16. */
  function GroupOf(e: SourceExport): Option<string> {
    if e.isThread && e.channelType in {15, 16} && e.parentName != "" then Some(FORUM + e.parentName) else None
  }

  predicate IsForum(group: string) {
    FORUM <= group
  }

  predicate Mapped(st: Saved, id: string) {
    id in st.channelMap && st.channelMap[id] != ""
  }

  function MembersOf(st: Saved, group: string): seq<string> {
    if group in st.forumMembers then st.forumMembers[group] else []
  }

  // ----- what a consistent input is

  /** A selected source has a Discord id and no other saved forum category than its group. */
  predicate ExportAgrees(st: Saved, e: SourceExport) {
    && IsId(e.id)
    && (e.id in st.channelCategories && IsForum(st.channelCategories[e.id]) ==>
          GroupOf(e) == Some(st.channelCategories[e.id]))
  }

  predicate OneGroupEach(es: seq<SourceExport>) {
    forall e, f :: e in es && f in es && e.id == f.id ==> GroupOf(e) == GroupOf(f)
  }

  /** A saved member has a Discord id, a channel, this saved category, and no other selected group. */
  predicate MemberAgrees(es: seq<SourceExport>, st: Saved, group: string, id: string) {
    && IsId(id) && Mapped(st, id)
    && id in st.channelCategories && st.channelCategories[id] == group
    && (forall e :: e in es && e.id == id ==> GroupOf(e) == Some(group))
  }

  ghost predicate RecordAgrees(es: seq<SourceExport>, st: Saved, group: string) {
    var members := MembersOf(st, group);
    && IsForum(group) && members != [] && NoDuplicates(members)
    && forall id :: id in members ==> MemberAgrees(es, st, group, id)
  }

  /** A saved forum category is backed by a saved membership and a channel. */
  predicate CategoryAgrees(st: Saved, id: string)
    requires id in st.channelCategories
  {
    var group := st.channelCategories[id];
    IsForum(group) ==> id in MembersOf(st, group) && Mapped(st, id)
  }

  predicate Places(es: seq<SourceExport>, group: string, id: string) {
    exists e :: e in es && GroupOf(e) == Some(group) && e.id == id
  }

  predicate Names(es: seq<SourceExport>, group: string) {
    exists e :: e in es && GroupOf(e) == Some(group)
  }

  /** The groups an index is wanted for. */
  predicate IsGroup(es: seq<SourceExport>, st: Saved, group: string) {
    || Names(es, group)
    || INDEX + group in st.channelMap
    || group in st.forumCategoryNames
    || group in st.forumMembers
  }

  predicate IsMember(es: seq<SourceExport>, st: Saved, group: string, id: string) {
    Places(es, group, id) || id in MembersOf(st, group)
  }

  ghost predicate GroupAgrees(es: seq<SourceExport>, st: Saved, printable: string -> bool, group: string) {
    && IsForum(group) && |group| > |FORUM| && printable(group)
    && exists id :: IsMember(es, st, group, id)
  }

  ghost predicate Consistent(es: seq<SourceExport>, st: Saved, printable: string -> bool) {
    && (forall e :: e in es ==> ExportAgrees(st, e))
    && OneGroupEach(es)
    && (forall g :: g in st.forumMembers ==> RecordAgrees(es, st, g))
    && (forall id :: id in st.channelCategories ==> CategoryAgrees(st, id))
    && (forall g :: IsGroup(es, st, g) ==> GroupAgrees(es, st, printable, g))
  }

  /** The answer: every group with its members. */
  ghost predicate Answers(groups: map<string, set<string>>, es: seq<SourceExport>, st: Saved) {
    && (forall g :: g in groups <==> IsGroup(es, st, g))
    && (forall g, id :: g in groups ==> (id in groups[g] <==> IsMember(es, st, g, id)))
  }

  // ----- the function itself

  type Groups = map<string, set<string>>

  /** `setdefault(g, set())` */
  function Opened(groups: Groups, g: string): Groups {
    if g in groups then groups else groups[g := {}]
  }

  function Placed(groups: Groups, g: string, id: string): Groups {
    Opened(groups, g)[g := Opened(groups, g)[g] + {id}]
  }

  ghost predicate Choices(es: seq<SourceExport>, selected: map<string, Option<string>>) {
    && (forall id :: id in selected ==> exists e :: e in es && e.id == id)
    && (forall e :: e in es ==> e.id in selected && selected[e.id] == GroupOf(e))
  }

  ghost predicate Placement(es: seq<SourceExport>, groups: Groups) {
    && (forall g :: g in groups <==> Names(es, g))
    && (forall g, id :: g in groups ==> (id in groups[g] <==> Places(es, g, id)))
  }

  lemma NamesAppend(es: seq<SourceExport>, e: SourceExport, g: string)
    ensures Names(es + [e], g) <==> Names(es, g) || GroupOf(e) == Some(g)
  {
    if f :| f in es && GroupOf(f) == Some(g) {
      assert f in es + [e];
    }
    if GroupOf(e) == Some(g) {
      assert e in es + [e];
    }
  }

  lemma PlacesAppend(es: seq<SourceExport>, e: SourceExport, g: string, id: string)
    ensures Places(es + [e], g, id) <==> Places(es, g, id) || (GroupOf(e) == Some(g) && e.id == id)
  {
    if f :| f in es && GroupOf(f) == Some(g) && f.id == id {
      assert f in es + [e];
    }
    if GroupOf(e) == Some(g) && e.id == id {
      assert e in es + [e];
    }
  }

  lemma PlaceOne(es: seq<SourceExport>, e: SourceExport, groups: Groups)
    requires Placement(es, groups)
    ensures GroupOf(e).None? ==> Placement(es + [e], groups)
    ensures GroupOf(e).Some? ==> Placement(es + [e], Placed(groups, GroupOf(e).value, e.id))
  {
    forall g ensures Names(es + [e], g) <==> Names(es, g) || GroupOf(e) == Some(g) {
      NamesAppend(es, e, g);
    }
    forall g, id ensures Places(es + [e], g, id) <==> Places(es, g, id) || (GroupOf(e) == Some(g) && e.id == id) {
      PlacesAppend(es, e, g, id);
    }
    forall g, id | !Names(es, g) ensures !Places(es, g, id) {
    }
  }

  lemma ChooseOne(es: seq<SourceExport>, e: SourceExport, selected: map<string, Option<string>>)
    requires Choices(es, selected) && (e.id in selected ==> selected[e.id] == GroupOf(e))
    ensures Choices(es + [e], selected[e.id := GroupOf(e)])
  {
    var after := selected[e.id := GroupOf(e)];
    forall id | id in after ensures exists f :: f in es + [e] && f.id == id {
      if id in selected {
        var f :| f in es && f.id == id;
        assert f in es + [e];
      } else {
        assert e in es + [e];
      }
    }
  }

  lemma ChoicesConflict(es: seq<SourceExport>, i: nat, selected: map<string, Option<string>>)
    requires i < |es| && Choices(es[..i], selected)
    requires es[i].id in selected && selected[es[i].id] != GroupOf(es[i])
    ensures !OneGroupEach(es)
  {
    var f :| f in es[..i] && f.id == es[i].id;
    assert f in es && es[i] in es;
  }

  method SelectSources(es: seq<SourceExport>, st: Saved)
    returns (ok: bool, selected: map<string, Option<string>>, groups: Groups)
    ensures ok <==> (forall e :: e in es ==> ExportAgrees(st, e)) && OneGroupEach(es)
    ensures ok ==> Choices(es, selected) && Placement(es, groups)
  {
    selected, groups := map[], map[];
    for i := 0 to |es|
      invariant forall e :: e in es[..i] ==> ExportAgrees(st, e)
      invariant Choices(es[..i], selected)
      invariant Placement(es[..i], groups)
    {
      var e := es[i];
      assert e in es && es[..i + 1] == es[..i] + [e];
      if !IsId(e.id) {
        return false, selected, groups;
      }
      if e.id in selected && selected[e.id] != GroupOf(e) {
        ChoicesConflict(es, i, selected);
        return false, selected, groups;
      }
      ChooseOne(es[..i], e, selected);
      PlaceOne(es[..i], e, groups);
      selected := selected[e.id := GroupOf(e)];
      if GroupOf(e).Some? {
        groups := Placed(groups, GroupOf(e).value, e.id);
      }
      if e.id in st.channelCategories && IsForum(st.channelCategories[e.id])
         && Some(st.channelCategories[e.id]) != GroupOf(e) {
        return false, selected, groups;
      }
    }
    assert es[..|es|] == es;
    ok := true;
  }

  /** Groups known only by a saved index channel or a saved category start empty. */
  method OpenSavedGroups(st: Saved, given: Groups) returns (groups: Groups)
    ensures forall g :: g in groups <==> g in given || INDEX + g in st.channelMap || g in st.forumCategoryNames
    ensures forall g :: g in groups ==> groups[g] == if g in given then given[g] else {}
  {
    groups := given;
    var keys := st.channelMap.Keys;
    while keys != {}
      invariant keys <= st.channelMap.Keys
      invariant forall g :: g in groups <==> g in given || INDEX + g in st.channelMap.Keys - keys
      invariant forall g :: g in groups ==> groups[g] == if g in given then given[g] else {}
    {
      var key :| key in keys;
      keys := keys - {key};
      if INDEX <= key {
        var g := key[|INDEX|..];
        assert INDEX + g == key;
        assert forall h :: INDEX + h == key ==> h == (INDEX + h)[|INDEX|..] == g;
        groups := Opened(groups, g);
      }
    }
    var names := st.forumCategoryNames;
    while names != {}
      invariant names <= st.forumCategoryNames
      invariant forall g :: g in groups <==>
                  g in given || INDEX + g in st.channelMap || g in st.forumCategoryNames - names
      invariant forall g :: g in groups ==> groups[g] == if g in given then given[g] else {}
    {
      var g :| g in names;
      names := names - {g};
      groups := Opened(groups, g);
    }
  }

  predicate SelectionAllows(selected: map<string, Option<string>>, group: string, id: string) {
    id in selected ==> selected[id] == Some(group)
  }

  predicate MemberIsSaved(st: Saved, group: string, id: string) {
    IsId(id) && Mapped(st, id) && id in st.channelCategories && st.channelCategories[id] == group
  }

  function At(groups: Groups, g: string): set<string> {
    if g in groups then groups[g] else {}
  }

  ghost predicate Joined(given: Groups, group: string, ids: set<string>, groups: Groups) {
    && group in groups && groups[group] == At(given, group) + ids
    && forall g :: g != group ==> (g in groups <==> g in given) && At(groups, g) == At(given, g)
  }

  /** The members of one saved group join it, unless one of them contradicts something. */
  method AddMembers(
    selected: map<string, Option<string>>, st: Saved, group: string, members: seq<string>, given: Groups)
    returns (ok: bool, groups: Groups)
    requires members != []
    ensures ok <==> forall id :: id in members ==> MemberIsSaved(st, group, id) && SelectionAllows(selected, group, id)
    ensures ok ==> Joined(given, group, ToSet(members), groups)
  {
    groups := given;
    for i := 0 to |members|
      invariant forall id :: id in members[..i] ==> MemberIsSaved(st, group, id) && SelectionAllows(selected, group, id)
      invariant if i == 0 then groups == given else Joined(given, group, ToSet(members[..i]), groups)
    {
      var id := members[i];
      assert id in members && members[..i + 1] == members[..i] + [id];
      if !IsId(id) || !Mapped(st, id) || id !in st.channelCategories || st.channelCategories[id] != group
         || (id in selected && selected[id] != Some(group)) {
        assert !(MemberIsSaved(st, group, id) && SelectionAllows(selected, group, id));
        return false, groups;
      }
      groups := Placed(groups, group, id);
      assert ToSet(members[..i + 1]) == ToSet(members[..i]) + {id};
    }
    assert members[..|members|] == members;
    ok := true;
  }

  predicate HasRepeat(s: seq<string>) {
    |ToSet(s)| != |s|
  }

  lemma RepeatExactly(s: seq<string>)
    ensures HasRepeat(s) <==> !NoDuplicates(s)
  {
    if NoDuplicates(s) {
      NoDuplicatesLength(s);
    } else if |ToSet(s)| == |s| {
      FullSetNoDuplicates(s);
    }
  }

  method AddRecord(es: seq<SourceExport>, selected: map<string, Option<string>>, st: Saved, g: string, given: Groups)
    returns (ok: bool, groups: Groups)
    requires Choices(es, selected) && g in st.forumMembers
    ensures ok <==> RecordAgrees(es, st, g)
    ensures ok ==> Joined(given, g, ToSet(MembersOf(st, g)), groups)
  {
    groups := given;
    var members := st.forumMembers[g];
    RepeatExactly(members);
    if !IsForum(g) || members == [] || HasRepeat(members) {
      return false, groups;
    }
    MembersAgreeExactly(es, selected, st, g);
    ok, groups := AddMembers(selected, st, g, members, groups);
  }

  /** `groups` is `given` with the saved members of the groups in `done`. */
  ghost predicate Merged(given: Groups, st: Saved, done: set<string>, groups: Groups) {
    && (forall g :: g in groups <==> g in given || g in done)
    && (forall g :: At(groups, g) == At(given, g) + (if g in done then ToSet(MembersOf(st, g)) else {}))
  }

  lemma MergeOne(given: Groups, st: Saved, done: set<string>, groups: Groups, g: string, after: Groups)
    requires Merged(given, st, done, groups) && g !in done
    requires Joined(groups, g, ToSet(MembersOf(st, g)), after)
    ensures Merged(given, st, done + {g}, after)
  {
  }

  /** Every saved membership joins its group. */
  method AddSavedMembers(es: seq<SourceExport>, selected: map<string, Option<string>>, st: Saved, given: Groups)
    returns (ok: bool, groups: Groups)
    requires Choices(es, selected)
    ensures ok <==> forall g :: g in st.forumMembers ==> RecordAgrees(es, st, g)
    ensures ok ==> Merged(given, st, st.forumMembers.Keys, groups)
  {
    groups := given;
    var rest := st.forumMembers.Keys;
    while rest != {}
      invariant rest <= st.forumMembers.Keys
      invariant forall g :: g in st.forumMembers && g !in rest ==> RecordAgrees(es, st, g)
      invariant Merged(given, st, st.forumMembers.Keys - rest, groups)
    {
      var g :| g in rest;
      var after;
      ok, after := AddRecord(es, selected, st, g, groups);
      if !ok {
        return;
      }
      MergeOne(given, st, st.forumMembers.Keys - rest, groups, g, after);
      assert st.forumMembers.Keys - (rest - {g}) == st.forumMembers.Keys - rest + {g};
      groups := after;
      rest := rest - {g};
    }
    assert st.forumMembers.Keys - rest == st.forumMembers.Keys;
    ok := true;
  }

  lemma MembersAgreeExactly(es: seq<SourceExport>, selected: map<string, Option<string>>, st: Saved, g: string)
    requires Choices(es, selected)
    ensures forall id :: MemberIsSaved(st, g, id) && SelectionAllows(selected, g, id) <==> MemberAgrees(es, st, g, id)
  {
    forall id ensures SelectionAllows(selected, g, id) <==> forall e :: e in es && e.id == id ==> GroupOf(e) == Some(g) {
      if id in selected {
        var f :| f in es && f.id == id;
        assert selected[id] == GroupOf(f);
      }
    }
  }

  method CategoriesAgree(st: Saved) returns (ok: bool)
    ensures ok <==> forall id :: id in st.channelCategories ==> CategoryAgrees(st, id)
  {
    var rest := st.channelCategories.Keys;
    while rest != {}
      invariant rest <= st.channelCategories.Keys
      invariant forall id :: id in st.channelCategories.Keys - rest ==> CategoryAgrees(st, id)
    {
      var id :| id in rest;
      if IsForum(st.channelCategories[id])
         && (id !in MembersOf(st, st.channelCategories[id]) || !Mapped(st, id)) {
        return false;
      }
      rest := rest - {id};
    }
    ok := true;
  }

  predicate GroupIsSound(printable: string -> bool, g: string, ids: set<string>) {
    IsForum(g) && |g| > |FORUM| && printable(g) && ids != {}
  }

  method GroupsAreSound(printable: string -> bool, groups: Groups) returns (ok: bool)
    ensures ok <==> forall g :: g in groups ==> GroupIsSound(printable, g, groups[g])
  {
    var rest := groups.Keys;
    while rest != {}
      invariant rest <= groups.Keys
      invariant forall g :: g in groups.Keys - rest ==> GroupIsSound(printable, g, groups[g])
    {
      var g :| g in rest;
      if !GroupIsSound(printable, g, groups[g]) {
        return false;
      }
      rest := rest - {g};
    }
    ok := true;
  }

  lemma SoundExactly(es: seq<SourceExport>, st: Saved, printable: string -> bool, groups: Groups)
    requires Answers(groups, es, st)
    ensures (forall g :: g in groups ==> GroupIsSound(printable, g, groups[g]))
            <==> (forall g :: IsGroup(es, st, g) ==> GroupAgrees(es, st, printable, g))
  {
    forall g | g in groups ensures groups[g] != {} <==> exists id :: IsMember(es, st, g, id) {
      if groups[g] != {} {
        var id :| id in groups[g];
        assert IsMember(es, st, g, id);
      }
      if id :| IsMember(es, st, g, id) {
        assert id in groups[g];
      }
    }
  }

  /** Accepted exactly when nothing contradicts anything, and then the answer is complete. */
  method PermissionIndexSources(es: seq<SourceExport>, st: Saved, printable: string -> bool)
    returns (r: Option<Groups>)
    ensures r.Some? <==> Consistent(es, st, printable)
    ensures r.Some? ==> Answers(r.value, es, st)
  {
    var ok, selected, placed := SelectSources(es, st);
    if !ok {
      return None;
    }
    var known := OpenSavedGroups(st, placed);
    var groups;
    ok, groups := AddSavedMembers(es, selected, st, known);
    if !ok {
      return None;
    }
    forall g, id | g in groups ensures id in groups[g] <==> IsMember(es, st, g, id) {
      assert At(groups, g) == groups[g];
      assert Places(es, g, id) ==> Names(es, g);
    }
    assert Answers(groups, es, st);
    ok := CategoriesAgree(st);
    if !ok {
      return None;
    }
    SoundExactly(es, st, printable, groups);
    ok := GroupsAreSound(printable, groups);
    r := if ok then Some(groups) else None;
  }

  // ----- what acceptance promises

  /** A member of any accepted group comes with that group as its only possible one. */
  lemma MemberPinsGroup(es: seq<SourceExport>, st: Saved, printable: string -> bool, g: string, id: string)
    requires Consistent(es, st, printable) && IsMember(es, st, g, id)
    ensures forall e :: e in es && e.id == id ==> GroupOf(e) == Some(g)
    ensures id in st.channelCategories && IsForum(st.channelCategories[id]) ==> st.channelCategories[id] == g
  {
    if Places(es, g, id) {
      var e :| e in es && GroupOf(e) == Some(g) && e.id == id;
      assert ExportAgrees(st, e);
    } else {
      assert RecordAgrees(es, st, g);
    }
  }

  /** Main result: accepted groups are non-empty and pairwise disjoint, hold nothing but the forum posts
      of the exports and the saved members, every selected forum post is under its own group and every
      saved member under its own, and a saved forum category names the one group its channel is in. */
  lemma AcceptedGroupsPartition(es: seq<SourceExport>, st: Saved, printable: string -> bool, groups: Groups)
    requires Consistent(es, st, printable) && Answers(groups, es, st)
    ensures forall g :: g in groups ==> groups[g] != {} && "forum-" <= g && |g| > 6 && printable(g)
    ensures forall g :: g in st.forumCategoryNames || "forum-index-" + g in st.channelMap ==> g in groups
    ensures forall g, h :: g in groups && h in groups && g != h ==> groups[g] !! groups[h]
    ensures forall e :: e in es && GroupOf(e).Some? ==> GroupOf(e).value in groups && e.id in groups[GroupOf(e).value]
    ensures forall e :: e in es && e.isThread && (e.channelType == 15 || e.channelType == 16) && e.parentName != "" ==>
              "forum-" + e.parentName in groups && e.id in groups["forum-" + e.parentName]
    ensures forall g, id :: g in groups && id in groups[g] ==>
              || (g in st.forumMembers && id in st.forumMembers[g])
              || exists e :: e in es && e.id == id && e.isThread && (e.channelType == 15 || e.channelType == 16)
                             && e.parentName != "" && g == "forum-" + e.parentName
    ensures forall g, id :: g in st.forumMembers && id in st.forumMembers[g] ==> g in groups && id in groups[g]
    ensures forall id :: id in st.channelCategories && IsForum(st.channelCategories[id]) ==>
              st.channelCategories[id] in groups && id in groups[st.channelCategories[id]]
  {
    SoundExactly(es, st, printable, groups);
    forall g, id | g in groups && id in groups[g]
      ensures (g in st.forumMembers && id in st.forumMembers[g]) ||
              exists e :: e in es && e.id == id && e.isThread && (e.channelType == 15 || e.channelType == 16)
                          && e.parentName != "" && g == "forum-" + e.parentName
    {
      assert IsMember(es, st, g, id);
      if Places(es, g, id) {
        var e :| e in es && GroupOf(e) == Some(g) && e.id == id;
      }
    }
    forall e | e in es && GroupOf(e).Some?
      ensures GroupOf(e).value in groups && e.id in groups[GroupOf(e).value]
    {
      assert Names(es, GroupOf(e).value) && Places(es, GroupOf(e).value, e.id);
    }
    forall g, h, id | g in groups && h in groups && id in groups[g] && id in groups[h] ensures g == h {
      OneGroupPerMember(es, st, printable, g, h, id);
    }
    forall id | id in st.channelCategories && IsForum(st.channelCategories[id])
      ensures st.channelCategories[id] in groups && id in groups[st.channelCategories[id]]
    {
      assert CategoryAgrees(st, id);
    }
  }

  /** Every member of an accepted group has a Discord id; a saved one also has its channel and its
      saved category, and is listed once. */
  lemma AcceptedMembersAreSound(es: seq<SourceExport>, st: Saved, printable: string -> bool, groups: Groups, g: string, id: string)
    requires Consistent(es, st, printable) && Answers(groups, es, st) && g in groups && id in groups[g]
    ensures 1 <= |id| <= 20 && forall i :: 0 <= i < |id| ==> '0' <= id[i] <= '9'
    ensures g in st.forumMembers && id in st.forumMembers[g] ==>
              && id in st.channelMap && st.channelMap[id] != ""
              && id in st.channelCategories && st.channelCategories[id] == g
              && exists i :: 0 <= i < |st.forumMembers[g]| && st.forumMembers[g][i] == id
                             && forall j :: 0 <= j < |st.forumMembers[g]| && st.forumMembers[g][j] == id ==> j == i
  {
    assert IsMember(es, st, g, id);
    if Places(es, g, id) {
      var e :| e in es && GroupOf(e) == Some(g) && e.id == id;
      assert ExportAgrees(st, e);
    }
    if g in st.forumMembers && id in st.forumMembers[g] {
      assert RecordAgrees(es, st, g) && MemberAgrees(es, st, g, id);
    }
    assert IsId(id);
    assert forall i :: 0 <= i < |id| ==> id[i] in id;
  }

  lemma OneGroupPerMember(es: seq<SourceExport>, st: Saved, printable: string -> bool, g: string, h: string, id: string)
    requires Consistent(es, st, printable) && IsMember(es, st, g, id) && IsMember(es, st, h, id)
    ensures g == h
  {
    MemberPinsGroup(es, st, printable, g, id);
    MemberPinsGroup(es, st, printable, h, id);
    if !Places(es, g, id) && !Places(es, h, id) {
      assert RecordAgrees(es, st, g) && RecordAgrees(es, st, h);
    }
  }
}
