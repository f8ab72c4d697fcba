/**
 Repairing missing categories and channels: a recreated channel is put back into its recorded
 category, a recreated category is rebuilt from the records, in whatever order the work comes.
 */
module RepairCategories {
  import opened Common

  /** A category of the live server; `channels` is None when the server sent no list. */
  datatype Category = Category(id: string, title: string, channels: Option<seq<string>>)

  /** The migration's records: the category of each channel (with the order the mapping is read
      in), and the recorded category titles. */
  datatype Records = Records(homes: map<string, string>, order: seq<string>, titles: map<string, string>)

  /** What the repair changes: the id maps and its copy of the live categories. */
  datatype View = View(channelMap: map<string, string>, categoryMap: map<string, string>, live: seq<Category>)

  /** One missing entity. `created` says whether the channel could be recreated at all. */
  datatype Work =
    | MissingChannel(channel: string, oldId: string, created: bool, newId: string)
    | MissingCategory(category: string, generated: string)

  // ----- the two operations on values

  function WithoutFirst(s: seq<string>, x: string): seq<string> {
    if s == [] then [] else if s[0] == x then s[1..] else [s[0]] + WithoutFirst(s[1..], x)
  }

  /** The channel list of the target category after a recreated channel is put back. */
  function PutBack(channels: seq<string>, oldId: string, newId: string): seq<string> {
    var kept := if oldId in channels then WithoutFirst(channels, oldId) else channels;
    if newId in kept then kept else kept + [newId]
  }

  /** `next((c for c in live if c["id"] == id), None)` */
  function Find(live: seq<Category>, id: string): (i: nat)
    ensures i <= |live|
    ensures i < |live| ==> live[i].id == id
    ensures forall j :: 0 <= j < i ==> live[j].id != id
  {
    if live == [] then 0 else if live[0].id == id then 0 else 1 + Find(live[1..], id)
  }

  /** The live category a channel is recorded in, if its records lead to one. */
  function HomeId(r: Records, categoryMap: map<string, string>, channel: string): Option<string> {
    if channel !in r.homes || r.homes[channel] == "" then None
    else if r.homes[channel] !in categoryMap || categoryMap[r.homes[channel]] == "" then None
    else Some(categoryMap[r.homes[channel]])
  }

  function Reattach(r: Records, v: View, channel: string, oldId: string, newId: string): View {
    var home := HomeId(r, v.categoryMap, channel);
    if home.None? then v
    else
      var i := Find(v.live, home.value);
      if i == |v.live| || v.live[i].channels.None? then v
      else v.(live := v.live[i := v.live[i].(channels := Some(PutBack(v.live[i].channels.value, oldId, newId)))])
  }

  /** The recorded channels of a category that have an id, in record order. */
  function RebuiltList(r: Records, channelMap: map<string, string>, category: string, order: seq<string>): seq<string> {
    if order == [] then []
    else
      var c := order[0];
      (if c in r.homes && r.homes[c] == category && c in channelMap then [channelMap[c]] else [])
      + RebuiltList(r, channelMap, category, order[1..])
  }

  /** The channels recorded in a category that have an id. */
  function RecordedChannels(r: Records, channelMap: map<string, string>, category: string): set<string> {
    set d | d in r.homes && r.homes[d] == category && d in channelMap
  }

  function IdsOf(channelMap: map<string, string>, ds: seq<string>): (ids: seq<string>)
    requires forall d :: d in ds ==> d in channelMap
    ensures |ids| == |ds| && forall i :: 0 <= i < |ds| ==> ids[i] == channelMap[ds[i]]
  {
    seq(|ds|, i requires 0 <= i < |ds| => assert ds[i] in ds; channelMap[ds[i]])
  }

  /** A rebuilt list holds the ids of the recorded channels in the order of the records. */
  lemma {:induction false} RebuiltInOrder(r: Records, channelMap: map<string, string>, category: string, order: seq<string>)
    ensures RebuiltList(r, channelMap, category, order) ==
              IdsOf(channelMap, Restrict(order, RecordedChannels(r, channelMap, category)))
    decreases |order|
  {
    if order != [] {
      RebuiltInOrder(r, channelMap, category, order[1..]);
    }
  }

  function Without(live: seq<Category>, id: string): seq<Category> {
    if live == [] then [] else (if live[0].id == id then [] else [live[0]]) + Without(live[1..], id)
  }

  predicate HasTitle(r: Records, category: string) {
    category in r.titles && r.titles[category] != ""
  }

  function Recreate(r: Records, v: View, category: string, generated: string): View {
    if !HasTitle(r, category) then v
    else
      var id := if category in v.categoryMap && v.categoryMap[category] != "" then v.categoryMap[category] else generated;
      var channels := RebuiltList(r, v.channelMap, category, r.order);
      v.(live := Without(v.live, id) + [Category(id, r.titles[category], Some(channels))],
         categoryMap := v.categoryMap[category := id])
  }

  function Do(r: Records, v: View, w: Work): View {
    match w
    case MissingChannel(channel, oldId, created, newId) =>
      if !created then v
      else Reattach(r, v.(channelMap := v.channelMap[channel := newId]), channel, oldId, newId)
    case MissingCategory(category, generated) => Recreate(r, v, category, generated)
  }

  function DoAll(r: Records, v: View, work: seq<Work>): View
    decreases |work|
  {
    if work == [] then v else DoAll(r, Do(r, v, work[0]), work[1..])
  }

  // ----- in place

  class Repair {
    const records: Records
    var channelMap: map<string, string>
    var categoryMap: map<string, string>
    var live: seq<Category>

    function Value(): View
      reads this
    {
      View(channelMap, categoryMap, live)
    }

    constructor (records: Records, v: View)
      ensures this.records == records && Value() == v
    {
      this.records := records;
      channelMap, categoryMap, live := v.channelMap, v.categoryMap, v.live;
    }

    method ReattachToCategory(channel: string, newId: string, oldId: string)
      modifies this`live
      ensures Value() == Reattach(records, old(Value()), channel, oldId, newId)
    {
      if channel !in records.homes || records.homes[channel] == "" {
        return;
      }
      var home := records.homes[channel];
      if home !in categoryMap || categoryMap[home] == "" {
        return;
      }
      var i := Find(live, categoryMap[home]);
      if i == |live| || live[i].channels.None? {
        return;
      }
      var channels := live[i].channels.value;
      var stale := oldId in channels;
      if newId in channels && !stale {
        assert live == live[i := live[i].(channels := Some(channels))];
        return;
      }
      if stale {
        channels := WithoutFirst(channels, oldId);
      }
      if newId !in channels {
        channels := channels + [newId];
      }
      live := live[i := live[i].(channels := Some(channels))];
    }

    method RecreateCategory(category: string, generated: string) returns (created: bool)
      modifies this`live, this`categoryMap
      ensures created <==> category in records.titles && records.titles[category] != ""
      ensures !created ==> Value() == old(Value())
      ensures created ==>
                var id := if category in old(categoryMap) && old(categoryMap)[category] != "" then old(categoryMap)[category] else generated;
                && categoryMap == old(categoryMap)[category := id]
                && live != [] && live[|live| - 1].id == id && live[|live| - 1].title == records.titles[category]
                && live[|live| - 1].channels ==
                     Some(IdsOf(channelMap, Restrict(records.order, RecordedChannels(records, channelMap, category))))
      ensures Value() == Recreate(records, old(Value()), category, generated)
    {
      if !HasTitle(records, category) {
        return false;
      }
      var channels: seq<string> := [];
      for i := 0 to |records.order|
        invariant channels + RebuiltList(records, channelMap, category, records.order[i..])
               == RebuiltList(records, channelMap, category, records.order)
      {
        var c := records.order[i];
        assert records.order[i..][0] == c && records.order[i..][1..] == records.order[i + 1..];
        if c in records.homes && records.homes[c] == category && c in channelMap {
          channels := channels + [channelMap[c]];
        }
      }
      assert channels == RebuiltList(records, channelMap, category, records.order);
      RebuiltInOrder(records, channelMap, category, records.order);
      var id := if category in categoryMap && categoryMap[category] != "" then categoryMap[category] else generated;
      live := Without(live, id) + [Category(id, records.titles[category], Some(channels))];
      categoryMap := categoryMap[category := id];
      created := true;
    }

    /** The loop over the structure work, in the order given. */
    method RepairStructure(work: seq<Work>)
      modifies this
      ensures Value() == DoAll(records, old(Value()), work)
    {
      for i := 0 to |work|
        invariant DoAll(records, Value(), work[i..]) == DoAll(records, old(Value()), work)
      {
        assert work[i..][0] == work[i] && work[i..][1..] == work[i + 1..];
        match work[i] {
          case MissingChannel(channel, oldId, created, newId) =>
            if created {
              channelMap := channelMap[channel := newId];
              ReattachToCategory(channel, newId, oldId);
            }
          case MissingCategory(category, generated) =>
            var recreated := RecreateCategory(category, generated);
        }
      }
    }
  }

  // ----- the live categories as a set with distinct ids

  ghost predicate DistinctIds(live: seq<Category>) {
    forall i, j :: 0 <= i < j < |live| ==> live[i].id != live[j].id
  }

  /** `after` holds `c` in place of whatever had its id, and everything else as before. */
  ghost predicate Puts(live: seq<Category>, c: Category, after: seq<Category>) {
    && DistinctIds(after)
    && (forall d :: d in after <==> d == c || (d in live && d.id != c.id))
  }

  lemma {:induction false} WithoutMembers(live: seq<Category>, id: string)
    requires DistinctIds(live)
    ensures DistinctIds(Without(live, id))
    ensures forall c :: c in Without(live, id) <==> c in live && c.id != id
  {
    if live != [] {
      WithoutMembers(live[1..], id);
      assert forall c :: c in live[1..] ==> c.id != live[0].id;
    }
  }

  lemma ReplacePuts(live: seq<Category>, c: Category)
    requires DistinctIds(live)
    ensures Puts(live, c, Without(live, c.id) + [c])
  {
    WithoutMembers(live, c.id);
    var kept := Without(live, c.id);
    assert forall i :: 0 <= i < |kept| ==> kept[i] in kept;
  }

  // ----- channel lists as sets

  lemma {:induction false} WithoutFirstMembers(s: seq<string>, x: string)
    requires NoDuplicates(s)
    ensures NoDuplicates(WithoutFirst(s, x))
    ensures forall y :: y in WithoutFirst(s, x) <==> y in s && y != x
  {
    if s != [] {
      assert s[0] !in s[1..];
      WithoutFirstMembers(s[1..], x);
    }
  }

  /** A channel put back is listed exactly once, its dead id not at all, the others as before. */
  lemma PutBackMembers(channels: seq<string>, oldId: string, newId: string)
    requires NoDuplicates(channels) && oldId != newId
    ensures NoDuplicates(PutBack(channels, oldId, newId))
    ensures forall y :: y in PutBack(channels, oldId, newId) <==> (y in channels && y != oldId) || y == newId
  {
    WithoutFirstMembers(channels, oldId);
  }

  /** The others stay in order, and a new id goes to the end. */
  lemma {:induction false} PutBackKeepsOrder(channels: seq<string>, oldId: string, newId: string)
    requires NoDuplicates(channels) && oldId != newId
    ensures PutBack(channels, oldId, newId) ==
              Restrict(channels, ToSet(channels) - {oldId}) + (if newId in channels then [] else [newId])
  {
    WithoutFirstKeepsOrder(channels, oldId, ToSet(channels) - {oldId});
    WithoutFirstMembers(channels, oldId);
    if oldId !in channels {
      WithoutFirstAbsent(channels, oldId);
    }
  }

  lemma {:induction false} WithoutFirstKeepsOrder(s: seq<string>, x: string, keep: set<string>)
    requires NoDuplicates(s) && (forall y :: y in s && y != x ==> y in keep) && x !in keep
    ensures WithoutFirst(s, x) == Restrict(s, keep)
  {
    if s != [] {
      WithoutFirstKeepsOrder(s[1..], x, keep);
      if s[0] == x {
        assert s[0] !in s[1..];
        WithoutFirstAbsent(s[1..], x);
      }
    }
  }

  lemma {:induction false} WithoutFirstAbsent(s: seq<string>, x: string)
    requires x !in s
    ensures WithoutFirst(s, x) == s
  {
    if s != [] {
      WithoutFirstAbsent(s[1..], x);
    }
  }

  ghost predicate Injective(m: map<string, string>) {
    forall a, b :: a in m && b in m && m[a] == m[b] ==> a == b
  }

  /** Some channel recorded in the category has this id. */
  ghost predicate RecordedIn(r: Records, channelMap: map<string, string>, category: string, id: string) {
    exists d :: Lists(r, channelMap, category, d, id)
  }

  ghost predicate Lists(r: Records, channelMap: map<string, string>, category: string, d: string, id: string) {
    d in r.homes && r.homes[d] == category && d in channelMap && channelMap[d] == id
  }

  lemma {:induction false} RebuiltListMembers(r: Records, channelMap: map<string, string>, category: string, order: seq<string>)
    requires NoDuplicates(order) && Injective(channelMap)
    ensures forall id :: id in RebuiltList(r, channelMap, category, order) <==>
              exists d :: d in order && Lists(r, channelMap, category, d, id)
    ensures NoDuplicates(RebuiltList(r, channelMap, category, order))
  {
    if order != [] {
      var c, rest := order[0], order[1..];
      assert c !in rest;
      RebuiltListMembers(r, channelMap, category, rest);
      var tail := RebuiltList(r, channelMap, category, rest);
      forall id ensures id in RebuiltList(r, channelMap, category, order) <==>
                        exists d :: d in order && Lists(r, channelMap, category, d, id)
      {
        if d :| d in order && Lists(r, channelMap, category, d, id) {
          assert d == c || d in rest;
        }
        if id in tail {
          var d :| d in rest && Lists(r, channelMap, category, d, id);
          assert d in order;
        }
        assert c in order;
      }
      if c in r.homes && r.homes[c] == category && c in channelMap {
        assert channelMap[c] !in tail;
      }
    }
  }

  // ----- where every channel ends up

  ghost predicate Moved(done: set<Work>, w: Work) {
    w in done && w.MissingChannel? && w.created
  }

  ghost predicate Rebuilt(r: Records, done: set<Work>, category: string) {
    && category in r.titles && r.titles[category] != ""
    && exists w :: w in done && w.MissingCategory? && w.category == category
  }

  ghost predicate LiveId(live: seq<Category>, id: string) {
    exists c :: c in live && c.id == id
  }

  predicate SameEntity(w: Work, u: Work) {
    || (w.MissingChannel? && u.MissingChannel? && (w.channel == u.channel || w.newId == u.newId))
    || (w.MissingCategory? && u.MissingCategory? && w.category == u.category)
  }

  /** What the check hands over: distinct ids, the recorded id of each missing channel, server ids
      that are new, and missing categories that are recorded but not live. */
  ghost predicate Sound(r: Records, v: View, all: set<Work>) {
    && DistinctIds(v.live) && Injective(v.channelMap) && Injective(v.categoryMap)
    && NoDuplicates(r.order) && (forall d :: d in r.homes ==> d in r.order)
    && (forall c :: c in v.live && c.channels.Some? ==> NoDuplicates(c.channels.value))
    && (forall w :: w in all && w.MissingChannel? ==>
          && w.channel in v.channelMap && v.channelMap[w.channel] == w.oldId
          && w.newId !in v.channelMap.Values
          && (forall c :: c in v.live && c.channels.Some? ==> w.newId !in c.channels.value))
    && (forall w, u :: w in all && u in all && SameEntity(w, u) ==> w == u)
    && (forall w :: w in all && w.MissingCategory? ==>
          w.category != "" && w.category in v.categoryMap && v.categoryMap[w.category] != ""
          && !LiveId(v.live, v.categoryMap[w.category]))
  }

  /** The channel is recorded in a category, and that is mapped to this id. */
  ghost predicate Homed(r: Records, v: View, w: Work, id: string)
    requires w.MissingChannel?
  {
    && w.channel in r.homes && r.homes[w.channel] != ""
    && r.homes[w.channel] in v.categoryMap && v.categoryMap[r.homes[w.channel]] == id && id != ""
  }

  ghost predicate Left(r: Records, v: View, done: set<Work>, id: string, x: string) {
    exists w :: Moved(done, w) && Homed(r, v, w, id) && w.oldId == x
  }

  ghost predicate Came(r: Records, v: View, done: set<Work>, id: string, x: string) {
    exists w :: Moved(done, w) && Homed(r, v, w, id) && w.newId == x
  }

  /** The channel map after some work: recreated channels under their new ids, the rest as before. */
  ghost predicate MapMatches(v: View, done: set<Work>, channelMap: map<string, string>) {
    && channelMap.Keys == v.channelMap.Keys
    && Injective(channelMap)
    && (forall w :: Moved(done, w) && w.channel in channelMap ==> channelMap[w.channel] == w.newId)
    && (forall d :: d in channelMap && (forall w :: Moved(done, w) ==> w.channel != d) ==>
          channelMap[d] == v.channelMap[d])
  }

  /** A recreated category lists exactly its recorded channels, each once. */
  ghost predicate AsRecorded(r: Records, channelMap: map<string, string>, category: string, c: Category) {
    && category in r.titles && c.title == r.titles[category]
    && c.channels.Some? && NoDuplicates(c.channels.value)
    && (forall x :: x in c.channels.value <==> RecordedIn(r, channelMap, category, x))
  }

  /** A category that was live keeps its channels, except that each channel recreated into it is
      there once under its new id and not under its old one. */
  ghost predicate AsBefore(r: Records, v: View, done: set<Work>, before: Category, c: Category) {
    && c.id == before.id && c.title == before.title
    && (before.channels.None? ==> c.channels.None?)
    && (before.channels.Some? ==>
          && c.channels.Some? && NoDuplicates(c.channels.value)
          && (forall x :: x in c.channels.value <==>
                (x in before.channels.value && !Left(r, v, done, c.id, x)) || Came(r, v, done, c.id, x)))
  }

  ghost predicate Expected(r: Records, v: View, done: set<Work>, channelMap: map<string, string>, c: Category) {
    || (exists k :: Rebuilt(r, done, k) && k in v.categoryMap && v.categoryMap[k] == c.id && AsRecorded(r, channelMap, k, c))
    || (exists b :: b in v.live && AsBefore(r, v, done, b, c))
  }

  ghost predicate RebuiltId(r: Records, v: View, done: set<Work>, id: string) {
    exists k :: Rebuilt(r, done, k) && k in v.categoryMap && v.categoryMap[k] == id
  }

  /** `now` is what `v` becomes through the work in `done`, in any order. */
  ghost predicate Matches(r: Records, v: View, done: set<Work>, now: View) {
    && now.categoryMap == v.categoryMap
    && MapMatches(v, done, now.channelMap)
    && DistinctIds(now.live)
    && (forall id :: LiveId(now.live, id) <==> LiveId(v.live, id) || RebuiltId(r, v, done, id))
    && (forall c :: c in now.live ==> Expected(r, v, done, now.channelMap, c))
  }

  lemma MatchesStart(r: Records, v: View, all: set<Work>)
    requires Sound(r, v, all)
    ensures Matches(r, v, {}, v)
  {
    forall c | c in v.live ensures Expected(r, v, {}, v.channelMap, c) {
      assert AsBefore(r, v, {}, c, c);
    }
  }

  lemma MapStep(v: View, r: Records, all: set<Work>, done: set<Work>, w: Work, channelMap: map<string, string>)
    requires Sound(r, v, all) && done <= all && w in all && w !in done && w.MissingChannel? && w.created
    requires MapMatches(v, done, channelMap)
    ensures channelMap[w.channel] == w.oldId
    ensures MapMatches(v, done + {w}, channelMap[w.channel := w.newId])
    ensures forall d :: d in channelMap ==> channelMap[d] != w.newId
  {
    forall d | d in channelMap ensures channelMap[d] != w.newId {
      if u :| Moved(done, u) && u.channel == d {
      } else {
        assert channelMap[d] == v.channelMap[d];
      }
    }
    var next := channelMap[w.channel := w.newId];
    forall u | Moved(done + {w}, u) && u.channel in next ensures next[u.channel] == u.newId {
      if u != w {
        assert Moved(done, u);
      }
    }
    forall d | d in next && (forall u :: Moved(done + {w}, u) ==> u.channel != d) ensures next[d] == v.channelMap[d] {
      assert Moved(done + {w}, w);
      forall u | Moved(done, u) ensures u.channel != d {
        assert Moved(done + {w}, u);
      }
    }
    forall u | Moved(done, u) ensures u.channel != w.channel {
      assert SameEntity(u, w) || u.channel != w.channel;
    }
  }

  lemma RecordedStep(r: Records, channelMap: map<string, string>, d: string, newId: string, k: string, x: string)
    requires Injective(channelMap) && d in channelMap
    requires forall e :: e in channelMap ==> channelMap[e] != newId
    ensures RecordedIn(r, channelMap[d := newId], k, x) <==>
              if d in r.homes && r.homes[d] == k then (RecordedIn(r, channelMap, k, x) && x != channelMap[d]) || x == newId
              else RecordedIn(r, channelMap, k, x)
  {
    var next := channelMap[d := newId];
    if e :| Lists(r, channelMap, k, e, x) {
      assert e != d ==> Lists(r, next, k, e, x);
    }
    if e :| Lists(r, next, k, e, x) {
      assert e != d ==> Lists(r, channelMap, k, e, x);
    }
    if d in r.homes && r.homes[d] == k {
      assert Lists(r, next, k, d, newId);
    }
  }

  lemma MovesStep(r: Records, v: View, done: set<Work>, w: Work, id: string, x: string)
    requires w.MissingChannel? && w.created
    ensures Left(r, v, done + {w}, id, x) <==> Left(r, v, done, id, x) || (Homed(r, v, w, id) && w.oldId == x)
    ensures Came(r, v, done + {w}, id, x) <==> Came(r, v, done, id, x) || (Homed(r, v, w, id) && w.newId == x)
  {
    forall u ensures Moved(done + {w}, u) <==> Moved(done, u) || u == w {
    }
    assert Moved(done + {w}, w);
    if Left(r, v, done, id, x) {
      var u :| Moved(done, u) && Homed(r, v, u, id) && u.oldId == x;
      assert Moved(done + {w}, u);
    }
    if Came(r, v, done, id, x) {
      var u :| Moved(done, u) && Homed(r, v, u, id) && u.newId == x;
      assert Moved(done + {w}, u);
    }
  }

  /** A recorded missing category resolves to its id for every channel recorded in it. */
  lemma HomeOfRebuilt(r: Records, v: View, all: set<Work>, done: set<Work>, k: string, d: string)
    requires Sound(r, v, all) && done <= all && Rebuilt(r, done, k) && k in v.categoryMap
    ensures HomeId(r, v.categoryMap, d) == Some(v.categoryMap[k]) <==> d in r.homes && r.homes[d] == k
  {
    var w :| w in done && w.MissingCategory? && w.category == k;
    assert w in all;
  }

  lemma RebuiltSame(r: Records, done: set<Work>, w: Work, k: string)
    requires w.MissingChannel?
    ensures Rebuilt(r, done + {w}, k) <==> Rebuilt(r, done, k)
  {
    if u :| u in done && u.MissingCategory? && u.category == k {
      assert u in done + {w};
    }
  }

  /** The category is not the home of the recreated channel: nothing changes for it. */
  lemma UntouchedStep(r: Records, v: View, all: set<Work>, done: set<Work>, w: Work, channelMap: map<string, string>, c: Category)
    requires Sound(r, v, all) && done <= all && w in all && w !in done && w.MissingChannel? && w.created
    requires MapMatches(v, done, channelMap) && Expected(r, v, done, channelMap, c)
    requires !Homed(r, v, w, c.id)
    ensures Expected(r, v, done + {w}, channelMap[w.channel := w.newId], c)
  {
    MapStep(v, r, all, done, w, channelMap);
    var next := channelMap[w.channel := w.newId];
    if k :| Rebuilt(r, done, k) && k in v.categoryMap && v.categoryMap[k] == c.id && AsRecorded(r, channelMap, k, c) {
      HomeOfRebuilt(r, v, all, done, k, w.channel);
      RebuiltSame(r, done, w, k);
      forall x ensures x in c.channels.value <==> RecordedIn(r, next, k, x) {
        RecordedStep(r, channelMap, w.channel, w.newId, k, x);
      }
      assert AsRecorded(r, next, k, c);
    } else {
      var b :| b in v.live && AsBefore(r, v, done, b, c);
      forall x {
        MovesStep(r, v, done, w, c.id, x);
      }
      assert AsBefore(r, v, done + {w}, b, c);
    }
  }

  /** The home of the recreated channel, after the channel was put back. */
  lemma TouchedStep(r: Records, v: View, all: set<Work>, done: set<Work>, w: Work, channelMap: map<string, string>, c: Category)
    requires Sound(r, v, all) && done <= all && w in all && w !in done && w.MissingChannel? && w.created
    requires MapMatches(v, done, channelMap) && Expected(r, v, done, channelMap, c)
    requires Homed(r, v, w, c.id)
    ensures var after := if c.channels.None? then c else c.(channels := Some(PutBack(c.channels.value, w.oldId, w.newId)));
            Expected(r, v, done + {w}, channelMap[w.channel := w.newId], after)
  {
    MapStep(v, r, all, done, w, channelMap);
    var next := channelMap[w.channel := w.newId];
    var after := if c.channels.None? then c else c.(channels := Some(PutBack(c.channels.value, w.oldId, w.newId)));
    assert w.oldId != w.newId;
    if c.channels.Some? {
      ExpectedNoDuplicates(r, v, done, channelMap, c);
      PutBackMembers(c.channels.value, w.oldId, w.newId);
    }
    if k :| Rebuilt(r, done, k) && k in v.categoryMap && v.categoryMap[k] == c.id && AsRecorded(r, channelMap, k, c) {
      HomeOfRebuilt(r, v, all, done, k, w.channel);
      RebuiltSame(r, done, w, k);
      forall x ensures x in after.channels.value <==> RecordedIn(r, next, k, x) {
        RecordedStep(r, channelMap, w.channel, w.newId, k, x);
      }
      assert AsRecorded(r, next, k, after);
    } else {
      var b :| b in v.live && AsBefore(r, v, done, b, c);
      forall x
        ensures b.channels.Some? ==> (x in after.channels.value <==>
                  (x in b.channels.value && !Left(r, v, done + {w}, c.id, x)) || Came(r, v, done + {w}, c.id, x))
      {
        MovesStep(r, v, done, w, c.id, x);
        if Came(r, v, done, c.id, x) {
          var u :| Moved(done, u) && Homed(r, v, u, c.id) && u.newId == x;
          assert u in all && x != w.oldId;
        }
      }
      assert AsBefore(r, v, done + {w}, b, after);
    }
  }

  lemma ExpectedNoDuplicates(r: Records, v: View, done: set<Work>, channelMap: map<string, string>, c: Category)
    requires Expected(r, v, done, channelMap, c) && c.channels.Some?
    ensures NoDuplicates(c.channels.value)
  {
    if b :| b in v.live && AsBefore(r, v, done, b, c) {
      assert b.channels.Some?;
    }
  }

  /** What putting a channel back makes of one category. */
  function Settled(c: Category, home: Option<string>, oldId: string, newId: string): (d: Category)
    ensures d.id == c.id
  {
    if home == Some(c.id) && c.channels.Some? then c.(channels := Some(PutBack(c.channels.value, oldId, newId))) else c
  }

  lemma ReattachLive(r: Records, now: View, channel: string, oldId: string, newId: string)
    requires DistinctIds(now.live)
    ensures var after := Reattach(r, now, channel, oldId, newId);
            var home := HomeId(r, now.categoryMap, channel);
            && after.channelMap == now.channelMap && after.categoryMap == now.categoryMap
            && DistinctIds(after.live)
            && |after.live| == |now.live|
            && forall i :: 0 <= i < |now.live| ==> after.live[i] == Settled(now.live[i], home, oldId, newId)
  {
    var home := HomeId(r, now.categoryMap, channel);
    if home.Some? {
      var i := Find(now.live, home.value);
      if i < |now.live| {
        assert forall j :: 0 <= j < |now.live| && j != i ==> now.live[j].id != home.value;
      }
    }
  }

  lemma SettledStep(r: Records, v: View, all: set<Work>, done: set<Work>, w: Work, channelMap: map<string, string>, c: Category)
    requires Sound(r, v, all) && done <= all && w in all && w !in done && w.MissingChannel? && w.created
    requires MapMatches(v, done, channelMap) && Expected(r, v, done, channelMap, c)
    ensures Expected(r, v, done + {w}, channelMap[w.channel := w.newId],
                     Settled(c, HomeId(r, v.categoryMap, w.channel), w.oldId, w.newId))
  {
    if Homed(r, v, w, c.id) {
      TouchedStep(r, v, all, done, w, channelMap, c);
    } else {
      UntouchedStep(r, v, all, done, w, channelMap, c);
    }
  }

  lemma SameIds(live: seq<Category>, after: seq<Category>)
    requires |after| == |live| && forall i :: 0 <= i < |live| ==> after[i].id == live[i].id
    ensures forall id :: LiveId(after, id) <==> LiveId(live, id)
  {
    forall id ensures LiveId(after, id) <==> LiveId(live, id) {
      if c :| c in live && c.id == id {
        var i :| 0 <= i < |live| && live[i] == c;
        assert after[i] in after;
      }
      if c :| c in after && c.id == id {
        var i :| 0 <= i < |after| && after[i] == c;
        assert live[i] in live;
      }
    }
  }

  lemma ChannelStep(r: Records, v: View, all: set<Work>, done: set<Work>, w: Work, now: View)
    requires Sound(r, v, all) && done <= all && w in all && w !in done && w.MissingChannel? && w.created
    requires Matches(r, v, done, now)
    ensures Matches(r, v, done + {w}, Do(r, now, w))
  {
    MapStep(v, r, all, done, w, now.channelMap);
    var next := now.channelMap[w.channel := w.newId];
    ReattachLive(r, now.(channelMap := next), w.channel, w.oldId, w.newId);
    var after := Do(r, now, w).live;
    SameIds(now.live, after);
    forall k ensures Rebuilt(r, done + {w}, k) <==> Rebuilt(r, done, k) {
      RebuiltSame(r, done, w, k);
    }
    forall d | d in after ensures Expected(r, v, done + {w}, next, d) {
      var i :| 0 <= i < |after| && after[i] == d;
      assert now.live[i] in now.live;
      SettledStep(r, v, all, done, w, now.channelMap, now.live[i]);
    }
  }

  lemma SameMoves(r: Records, v: View, done: set<Work>, w: Work)
    requires !(w.MissingChannel? && w.created)
    ensures forall id, x :: Left(r, v, done + {w}, id, x) <==> Left(r, v, done, id, x)
    ensures forall id, x :: Came(r, v, done + {w}, id, x) <==> Came(r, v, done, id, x)
    ensures forall u :: Moved(done + {w}, u) <==> Moved(done, u)
  {
    forall u ensures Moved(done + {w}, u) <==> Moved(done, u) {
    }
  }

  lemma ExpectedKept(r: Records, v: View, done: set<Work>, w: Work, channelMap: map<string, string>, c: Category)
    requires !(w.MissingChannel? && w.created)
    requires Expected(r, v, done, channelMap, c)
    ensures Expected(r, v, done + {w}, channelMap, c)
  {
    SameMoves(r, v, done, w);
    if k :| Rebuilt(r, done, k) && k in v.categoryMap && v.categoryMap[k] == c.id && AsRecorded(r, channelMap, k, c) {
      assert Rebuilt(r, done + {w}, k);
    } else {
      var b :| b in v.live && AsBefore(r, v, done, b, c);
      assert AsBefore(r, v, done + {w}, b, c);
    }
  }

  /** Work that could not be done leaves everything as it was. */
  lemma SkippedStep(r: Records, v: View, done: set<Work>, w: Work, now: View)
    requires if w.MissingChannel? then !w.created else !HasTitle(r, w.category)
    requires Matches(r, v, done, now)
    ensures Matches(r, v, done + {w}, Do(r, now, w))
  {
    SameMoves(r, v, done, w);
    forall c | c in now.live ensures Expected(r, v, done + {w}, now.channelMap, c) {
      ExpectedKept(r, v, done, w, now.channelMap, c);
    }
    forall k ensures Rebuilt(r, done + {w}, k) <==> Rebuilt(r, done, k) {
      if u :| u in done && u.MissingCategory? && u.category == k {
        assert u in done + {w};
      }
    }
  }

  lemma CategoryStep(r: Records, v: View, all: set<Work>, done: set<Work>, w: Work, now: View)
    requires Sound(r, v, all) && done <= all && w in all && w !in done && w.MissingCategory? && HasTitle(r, w.category)
    requires Matches(r, v, done, now)
    ensures Matches(r, v, done + {w}, Do(r, now, w))
  {
    var id := v.categoryMap[w.category];
    var c := Category(id, r.titles[w.category], Some(RebuiltList(r, now.channelMap, w.category, r.order)));
    var after := Without(now.live, id) + [c];
    assert Do(r, now, w).live == after;
    ReplacePuts(now.live, c);
    SameMoves(r, v, done, w);
    RebuiltListMembers(r, now.channelMap, w.category, r.order);
    forall x ensures x in c.channels.value <==> RecordedIn(r, now.channelMap, w.category, x) {
      if d :| Lists(r, now.channelMap, w.category, d, x) {
        assert d in r.order;
      }
    }
    assert Rebuilt(r, done + {w}, w.category) by {
      assert w in done + {w};
    }
    assert AsRecorded(r, now.channelMap, w.category, c);
    forall d | d in after ensures Expected(r, v, done + {w}, now.channelMap, d) {
      if d != c {
        ExpectedKept(r, v, done, w, now.channelMap, d);
      }
    }
    forall k ensures Rebuilt(r, done + {w}, k) <==> Rebuilt(r, done, k) || k == w.category {
      if u :| u in done && u.MissingCategory? && u.category == k {
        assert u in done + {w};
      }
    }
    forall i ensures LiveId(after, i) <==> LiveId(v.live, i) || RebuiltId(r, v, done + {w}, i) {
      assert c in after;
      if i != id {
        assert LiveId(after, i) <==> LiveId(now.live, i);
        assert RebuiltId(r, v, done + {w}, i) <==> RebuiltId(r, v, done, i);
      }
    }
    assert now.categoryMap[w.category := id] == now.categoryMap;
  }

  lemma WorkStep(r: Records, v: View, all: set<Work>, done: set<Work>, w: Work, now: View)
    requires Sound(r, v, all) && done <= all && w in all && w !in done
    requires Matches(r, v, done, now)
    ensures Matches(r, v, done + {w}, Do(r, now, w))
  {
    if w.MissingChannel? && w.created {
      ChannelStep(r, v, all, done, w, now);
    } else if w.MissingCategory? && HasTitle(r, w.category) {
      CategoryStep(r, v, all, done, w, now);
    } else {
      SkippedStep(r, v, done, w, now);
    }
  }

  lemma {:induction false} WorkMatches(r: Records, v: View, all: set<Work>, done: set<Work>, now: View, work: seq<Work>)
    requires Sound(r, v, all) && Matches(r, v, done, now)
    requires NoDuplicates(work) && (forall w :: w in work ==> w in all && w !in done) && done <= all
    ensures Matches(r, v, done + ToSet(work), DoAll(r, now, work))
    decreases |work|
  {
    if work == [] {
      assert done + ToSet(work) == done;
    } else {
      WorkStep(r, v, all, done, work[0], now);
      assert work[0] !in work[1..];
      WorkMatches(r, v, all, done + {work[0]}, Do(r, now, work[0]), work[1..]);
      assert done + {work[0]} + ToSet(work[1..]) == done + ToSet(work);
    }
  }

  /** Repair ends, for every processing order, in what its work as a set prescribes. */
  lemma RepairMatches(r: Records, v: View, work: seq<Work>)
    requires Sound(r, v, ToSet(work)) && NoDuplicates(work)
    ensures Matches(r, v, ToSet(work), DoAll(r, v, work))
  {
    MatchesStart(r, v, ToSet(work));
    WorkMatches(r, v, ToSet(work), {}, v, work);
    assert {} + ToSet(work) == ToSet(work);
  }

  /** The two categories list the same channels, once each, under the same id and title. */
  ghost predicate SameCategory(a: Category, b: Category) {
    && a.id == b.id && a.title == b.title
    && (a.channels.Some? <==> b.channels.Some?)
    && (a.channels.Some? ==>
          && NoDuplicates(a.channels.value) && NoDuplicates(b.channels.value)
          && multiset(a.channels.value) == multiset(b.channels.value))
  }

  lemma ExpectedDetermines(r: Records, v: View, all: set<Work>, channelMap: map<string, string>, a: Category, b: Category)
    requires Sound(r, v, all) && a.id == b.id
    requires Expected(r, v, all, channelMap, a) && Expected(r, v, all, channelMap, b)
    ensures SameCategory(a, b)
  {
    if k :| Rebuilt(r, all, k) && k in v.categoryMap && v.categoryMap[k] == a.id && AsRecorded(r, channelMap, k, a) {
      RebuiltNotLive(r, v, all, k);
      var l :| Rebuilt(r, all, l) && l in v.categoryMap && v.categoryMap[l] == b.id && AsRecorded(r, channelMap, l, b);
      SameSetSameMultiset(a.channels.value, b.channels.value);
    } else {
      var c :| c in v.live && AsBefore(r, v, all, c, a);
      if k :| Rebuilt(r, all, k) && k in v.categoryMap && v.categoryMap[k] == b.id {
        RebuiltNotLive(r, v, all, k);
      }
      var d :| d in v.live && AsBefore(r, v, all, d, b);
      assert c == d;
      if c.channels.Some? {
        SameSetSameMultiset(a.channels.value, b.channels.value);
      }
    }
  }

  lemma RebuiltNotLive(r: Records, v: View, all: set<Work>, k: string)
    requires Sound(r, v, all) && Rebuilt(r, all, k) && k in v.categoryMap
    ensures !LiveId(v.live, v.categoryMap[k])
  {
    var w :| w in all && w.MissingCategory? && w.category == k;
  }

  lemma MapDetermined(v: View, done: set<Work>, a: map<string, string>, b: map<string, string>)
    requires MapMatches(v, done, a) && MapMatches(v, done, b)
    ensures a == b
  {
    forall d | d in a ensures a[d] == b[d] {
      if w :| Moved(done, w) && w.channel == d {
      } else {
        assert a[d] == v.channelMap[d];
      }
    }
  }

  /** Main result: two processing orders of the same work end with the same id maps and the same
      categories, each with the same title and the same channels. */
  lemma OrderDoesNotMatter(r: Records, v: View, work: seq<Work>, other: seq<Work>)
    requires NoDuplicates(work) && NoDuplicates(other) && ToSet(work) == ToSet(other)
    requires Sound(r, v, ToSet(work))
    ensures var a := DoAll(r, v, work);
            var b := DoAll(r, v, other);
            && a.channelMap == b.channelMap && a.categoryMap == b.categoryMap
            && (forall id :: LiveId(a.live, id) <==> LiveId(b.live, id))
            && (forall c, d :: c in a.live && d in b.live && c.id == d.id ==> SameCategory(c, d))
  {
    var a := DoAll(r, v, work);
    var b := DoAll(r, v, other);
    var all := ToSet(work);
    RepairMatches(r, v, work);
    RepairMatches(r, v, other);
    MapDetermined(v, all, a.channelMap, b.channelMap);
    forall c, d | c in a.live && d in b.live && c.id == d.id ensures SameCategory(c, d) {
      ExpectedDetermines(r, v, all, a.channelMap, c, d);
    }
  }

  /** Each recreated channel is listed exactly once, under its new id, in its recorded category
      when that category is live at the end, and its old id is gone from it. */
  lemma RecreatedChannelIsHome(r: Records, v: View, work: seq<Work>, w: Work, c: Category)
    requires NoDuplicates(work) && Sound(r, v, ToSet(work))
    requires w in work && w.MissingChannel? && w.created
    requires c in DoAll(r, v, work).live && Homed(r, v, w, c.id) && c.channels.Some?
    ensures multiset(c.channels.value)[w.newId] == 1
    ensures w.oldId !in c.channels.value
  {
    var all := ToSet(work);
    var now := DoAll(r, v, work);
    RepairMatches(r, v, work);
    ExpectedNoDuplicates(r, v, all, now.channelMap, c);
    NoDuplicatesMultiset(c.channels.value);
    assert Moved(all, w) && now.channelMap[w.channel] == w.newId;
    if k :| Rebuilt(r, all, k) && k in v.categoryMap && v.categoryMap[k] == c.id && AsRecorded(r, now.channelMap, k, c) {
      HomeOfRebuilt(r, v, all, all, k, w.channel);
      assert Lists(r, now.channelMap, k, w.channel, w.newId);
      forall d | Lists(r, now.channelMap, k, d, w.oldId) ensures false {
        OldIdGone(v, r, all, now.channelMap, w, d);
      }
    } else {
      assert Left(r, v, all, c.id, w.oldId) && Came(r, v, all, c.id, w.newId);
      assert !Came(r, v, all, c.id, w.oldId);
    }
  }

  /** No channel is mapped to the old id of a recreated one any more. */
  lemma OldIdGone(v: View, r: Records, all: set<Work>, channelMap: map<string, string>, w: Work, d: string)
    requires Sound(r, v, all) && MapMatches(v, all, channelMap)
    requires Moved(all, w) && d in channelMap
    ensures channelMap[d] != w.oldId
  {
    if u :| Moved(all, u) && u.channel == d {
      assert u.newId !in v.channelMap.Values;
    } else {
      assert channelMap[d] == v.channelMap[d];
      assert d != w.channel;
    }
  }

  /** A live category no channel was recreated into keeps its title and its channels. */
  lemma OtherCategoriesPreserved(r: Records, v: View, work: seq<Work>, b: Category) returns (c: Category)
    requires NoDuplicates(work) && Sound(r, v, ToSet(work))
    requires b in v.live
    requires forall w :: w in work && w.MissingChannel? && w.created ==> !Homed(r, v, w, b.id)
    ensures c in DoAll(r, v, work).live && SameCategory(b, c)
  {
    var all := ToSet(work);
    var now := DoAll(r, v, work);
    RepairMatches(r, v, work);
    assert LiveId(v.live, b.id);
    c :| c in now.live && c.id == b.id;
    if k :| Rebuilt(r, all, k) && k in v.categoryMap && v.categoryMap[k] == c.id {
      RebuiltNotLive(r, v, all, k);
    }
    var before :| before in v.live && AsBefore(r, v, all, before, c);
    assert before == b;
    if b.channels.Some? {
      SameSetSameMultiset(b.channels.value, c.channels.value);
    }
  }

  /** A missing category with a recorded title is live again and lists its recorded channels. */
  lemma RecreatedCategoryIsComplete(r: Records, v: View, work: seq<Work>, w: Work) returns (c: Category)
    requires NoDuplicates(work) && Sound(r, v, ToSet(work))
    requires w in work && w.MissingCategory? && w.category in r.titles && r.titles[w.category] != ""
    ensures var now := DoAll(r, v, work);
            && c in now.live && c.id == v.categoryMap[w.category]
            && AsRecorded(r, now.channelMap, w.category, c)
  {
    var all := ToSet(work);
    var now := DoAll(r, v, work);
    RepairMatches(r, v, work);
    assert Rebuilt(r, all, w.category);
    assert RebuiltId(r, v, all, v.categoryMap[w.category]);
    RebuiltNotLive(r, v, all, w.category);
    c :| c in now.live && c.id == v.categoryMap[w.category];
  }
}
