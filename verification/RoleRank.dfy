/**
 The rank part of `_permission_role_layout`: known roles are re-sorted within the slots they
 already hold, and a plan that would move a native role is refused.
 */
module RoleRank {
  import opened Common
  import opened Sorting

  /** A role on the target server, or a role still to be created for a source role. */
  datatype Token = Target(id: string) | Source(sid: string)

  datatype Role = Role(id: string, position: int)

  // ----- the slot rewrite

  /** The indices at which `s` holds an element of `keep`, ascending. */
  function Slots(s: seq<Token>, keep: set<Token>): (r: seq<nat>)
    ensures forall k :: 0 <= k < |r| ==> r[k] < |s| && s[r[k]] in keep
    ensures forall j, k :: 0 <= j < k < |r| ==> r[j] < r[k]
    ensures forall i :: 0 <= i < |s| && s[i] in keep ==> i in r
  {
    if s == [] then []
    else
      var n := |s| - 1;
      var front := Slots(s[..n], keep);
      if s[n] in keep then front + [n] else front
  }

  function Pick(s: seq<Token>, at: seq<nat>): (r: seq<Token>)
    requires forall k :: 0 <= k < |at| ==> at[k] < |s|
    ensures |r| == |at| && forall k :: 0 <= k < |at| ==> r[k] == s[at[k]]
  {
    seq(|at|, k requires 0 <= k < |at| => s[at[k]])
  }

  lemma PickFromPrefix(s: seq<Token>, n: nat, at: seq<nat>)
    requires n <= |s| && forall k :: 0 <= k < |at| ==> at[k] < n
    ensures Pick(s[..n], at) == Pick(s, at)
  {
  }

  lemma PickOneMore(s: seq<Token>, at: seq<nat>, i: nat)
    requires i < |s| && forall k :: 0 <= k < |at| ==> at[k] < |s|
    ensures Pick(s, at + [i]) == Pick(s, at) + [s[i]]
  {
  }

  lemma RestrictLast(s: seq<Token>, keep: set<Token>, n: nat)
    requires |s| == n + 1
    ensures Restrict(s, keep) == Restrict(s[..n], keep) + (if s[n] in keep then [s[n]] else [])
  {
    assert s == s[..n] + [s[n]];
    RestrictAppend(s[..n], [s[n]], keep);
    assert Restrict([s[n]][1..], keep) == [];
  }

  lemma {:induction false} RestrictIsPick(s: seq<Token>, keep: set<Token>)
    ensures Restrict(s, keep) == Pick(s, Slots(s, keep))
  {
    if s != [] {
      var n := |s| - 1;
      var front := Slots(s[..n], keep);
      RestrictIsPick(s[..n], keep);
      RestrictLast(s, keep, n);
      PickFromPrefix(s, n, front);
      PickOneMore(s, front, n);
    }
  }

  lemma RestrictIsSlots(s: seq<Token>, keep: set<Token>)
    ensures |Restrict(s, keep)| == |Slots(s, keep)|
    ensures forall k :: 0 <= k < |Slots(s, keep)| ==> Restrict(s, keep)[k] == s[Slots(s, keep)[k]]
  {
    RestrictIsPick(s, keep);
  }

  lemma {:induction false} SameMembersSameSlots(s: seq<Token>, t: seq<Token>, keep: set<Token>)
    requires |s| == |t|
    requires forall i :: 0 <= i < |s| ==> (s[i] in keep <==> t[i] in keep)
    ensures Slots(s, keep) == Slots(t, keep)
  {
    if s != [] {
      SameMembersSameSlots(s[..|s| - 1], t[..|s| - 1], keep);
    }
  }

  /** `final` is `current` with the tokens of `desired` put into their own slots in that order. */
  ghost predicate IsRewrite(current: seq<Token>, desired: seq<Token>, final: seq<Token>) {
    && |final| == |current|
    && Restrict(final, ToSet(desired)) == desired
    && (forall i :: 0 <= i < |current| && current[i] !in desired ==> final[i] == current[i])
    && (forall i :: 0 <= i < |current| && current[i] in desired ==> final[i] in desired)
  }

  /** There are exactly as many slots as desired tokens, so pairing them strictly cannot fail. */
  lemma SlotsMatchDesired(current: seq<Token>, desired: seq<Token>)
    requires NoDuplicates(current) && NoDuplicates(desired)
    requires forall t :: t in desired ==> t in current
    ensures |Slots(current, ToSet(desired))| == |desired|
  {
    var known := ToSet(desired);
    RestrictIsSlots(current, known);
    RestrictNoDuplicates(current, known);
    SameSetSameMultiset(Restrict(current, known), desired);
  }

  lemma FilledSlots(current: seq<Token>, desired: seq<Token>, final: seq<Token>)
    requires |final| == |current|
    requires |Slots(current, ToSet(desired))| == |desired|
    requires forall i :: 0 <= i < |current| && current[i] !in ToSet(desired) ==> final[i] == current[i]
    requires forall k :: 0 <= k < |desired| ==> final[Slots(current, ToSet(desired))[k]] == desired[k]
    ensures IsRewrite(current, desired, final)
  {
    var known := ToSet(desired);
    var slots := Slots(current, known);
    forall i | 0 <= i < |current| && current[i] in known ensures final[i] in desired {
      assert i in slots;
      var k :| 0 <= k < |slots| && slots[k] == i;
      assert final[slots[k]] == desired[k];
    }
    SameMembersSameSlots(current, final, known);
    RestrictIsSlots(final, known);
    assert Restrict(final, known) == desired;
  }

  /** The loop `for slot, token in zip(slots, desired, strict=True): final[slot] = token`. */
  method FillSlots(current: seq<Token>, slots: seq<nat>, desired: seq<Token>) returns (result: seq<Token>)
    requires |slots| == |desired|
    requires forall k :: 0 <= k < |slots| ==> slots[k] < |current|
    requires forall j, k :: 0 <= j < k < |slots| ==> slots[j] < slots[k]
    ensures |result| == |current|
    ensures forall k :: 0 <= k < |slots| ==> result[slots[k]] == desired[k]
    ensures forall i :: 0 <= i < |current| && i !in slots ==> result[i] == current[i]
  {
    var final := new Token[|current|](i requires 0 <= i < |current| => current[i]);
    for k := 0 to |slots|
      invariant forall i :: 0 <= i < |current| && i !in slots ==> final[i] == current[i]
      invariant forall j :: 0 <= j < k ==> final[slots[j]] == desired[j]
    {
      final[slots[k]] := desired[k];
    }
    result := final[..];
  }

  /** The slot rewrite as a whole; its preconditions are what the plan has checked by then. */
  method RewriteSlots(current: seq<Token>, desired: seq<Token>) returns (result: seq<Token>)
    requires NoDuplicates(current) && NoDuplicates(desired)
    requires forall t :: t in desired ==> t in current
    ensures IsRewrite(current, desired, result)
  {
    var known := ToSet(desired);
    var slots := Slots(current, known);
    SlotsMatchDesired(current, desired);
    result := FillSlots(current, slots, desired);
    FilledSlots(current, desired, result);
  }

  lemma SlotIndex(s: seq<Token>, keep: set<Token>, i: nat) returns (k: nat)
    requires i < |s| && s[i] in keep
    ensures k < |Slots(s, keep)| && Slots(s, keep)[k] == i
  {
    var slots := Slots(s, keep);
    assert i in slots;
    k :| 0 <= k < |slots| && slots[k] == i;
  }

  lemma RewritePicks(current: seq<Token>, desired: seq<Token>, final: seq<Token>)
    requires IsRewrite(current, desired, final)
    ensures Pick(final, Slots(current, ToSet(desired))) == desired
  {
    SameMembersSameSlots(current, final, ToSet(desired));
    RestrictIsPick(final, ToSet(desired));
  }

  /** Which desired token a rewritten slot holds. */
  lemma RewriteAt(current: seq<Token>, desired: seq<Token>, final: seq<Token>, i: nat) returns (k: nat)
    requires IsRewrite(current, desired, final)
    requires i < |current| && current[i] in desired
    ensures k < |desired| && final[i] == desired[k]
    ensures k < |Slots(current, ToSet(desired))| && Slots(current, ToSet(desired))[k] == i
  {
    RewritePicks(current, desired, final);
    k := SlotIndex(current, ToSet(desired), i);
    assert Pick(final, Slots(current, ToSet(desired)))[k] == final[i];
  }

  lemma SlotsAreInjective(s: seq<Token>, keep: set<Token>, j: nat, k: nat)
    requires j < |Slots(s, keep)| && k < |Slots(s, keep)| && Slots(s, keep)[j] == Slots(s, keep)[k]
    ensures j == k
  {
  }

  /** The three clauses of `IsRewrite` leave one possible result. */
  lemma RewriteIsUnique(current: seq<Token>, desired: seq<Token>, a: seq<Token>, b: seq<Token>)
    requires IsRewrite(current, desired, a) && IsRewrite(current, desired, b)
    ensures a == b
  {
    forall i | 0 <= i < |current| ensures a[i] == b[i] {
      if current[i] in desired {
        var j := RewriteAt(current, desired, a, i);
        var k := RewriteAt(current, desired, b, i);
        SlotsAreInjective(current, ToSet(desired), j, k);
      }
    }
  }

  lemma RewriteNoDuplicates(current: seq<Token>, desired: seq<Token>, final: seq<Token>)
    requires NoDuplicates(current) && NoDuplicates(desired)
    requires IsRewrite(current, desired, final)
    ensures NoDuplicates(final)
  {
    forall i, j | 0 <= i < j < |final| ensures final[i] != final[j] {
      if current[i] in desired && current[j] in desired {
        var a := RewriteAt(current, desired, final, i);
        var b := RewriteAt(current, desired, final, j);
        assert a != b;
      }
    }
  }

  lemma RewriteMembers(current: seq<Token>, desired: seq<Token>, final: seq<Token>)
    requires forall t :: t in desired ==> t in current
    requires IsRewrite(current, desired, final)
    ensures forall t :: t in final <==> t in current
  {
    forall t | t in final ensures t in current {
      var i :| 0 <= i < |final| && final[i] == t;
      if current[i] !in desired {
        assert t == current[i];
      }
    }
    forall t | t in current ensures t in final {
      if t in desired {
        assert t in Restrict(final, ToSet(desired));
      } else {
        var i :| 0 <= i < |current| && current[i] == t;
        assert final[i] == t;
      }
    }
  }

  /** The result is a permutation of the current order. */
  lemma RewritePermutes(current: seq<Token>, desired: seq<Token>, final: seq<Token>)
    requires NoDuplicates(current) && NoDuplicates(desired)
    requires forall t :: t in desired ==> t in current
    requires IsRewrite(current, desired, final)
    ensures NoDuplicates(final)
    ensures forall t :: t in final <==> t in current
    ensures multiset(final) == multiset(current)
  {
    RewriteNoDuplicates(current, desired, final);
    RewriteMembers(current, desired, final);
    SameSetSameMultiset(final, current);
  }

  /** Rewriting the result again changes nothing. */
  lemma RewriteIsFixedPoint(current: seq<Token>, desired: seq<Token>, final: seq<Token>)
    requires IsRewrite(current, desired, final)
    ensures IsRewrite(final, desired, final)
  {
    forall i | 0 <= i < |final| && final[i] in desired ensures final[i] in desired {
    }
  }

  // ----- from observed roles to the slots

  /** What the rank part reads: the collected source roles, the positions in the bound source
      evidence, the saved role map, the ranks on the server, and the roles to be recreated. */
  datatype Request = Request(
    roles: seq<Role>,
    raw: map<string, int>,
    roleMap: map<string, string>,
    observed: map<string, Option<int>>,
    recreating: set<string>,
    limit: nat,
    changeRoles: bool,
    orderRoles: bool
  )

  predicate HighestFirst(a: Role, b: Role) {
    a.position > b.position || (a.position == b.position && LexLe(a.id, b.id))
  }

  /** `sorted(..., key=(position, id), reverse=True)` */
  predicate Descending(a: Role, b: Role) {
    a.position > b.position || (a.position == b.position && LexLe(b.id, a.id))
  }

  predicate ById(a: Role, b: Role) {
    if a.id == b.id then a.position <= b.position else LexLe(a.id, b.id)
  }

  function Mapped(q: Request): (m: map<string, string>) {
    q.roleMap - q.recreating
  }

  function RecreatedRoles(roles: seq<Role>, recreating: set<string>): (r: seq<Role>) {
    if roles == [] then []
    else (if roles[0].id in recreating then [roles[0]] else []) + RecreatedRoles(roles[1..], recreating)
  }

  function Processed(q: Request): seq<Role> {
    if q.changeRoles then
      var all := Sort(q.roles, Descending);
      if |all| <= q.limit then all else all[..q.limit]
    else if q.orderRoles then Sort(q.roles, Descending)
    else Sort(RecreatedRoles(q.roles, q.recreating), ById)
  }

  function Unmapped(roles: seq<Role>, mapped: map<string, string>): seq<string> {
    if roles == [] then []
    else (if roles[0].id in mapped then [] else [roles[0].id]) + Unmapped(roles[1..], mapped)
  }

  lemma {:induction false} UnmappedExactly(roles: seq<Role>, mapped: map<string, string>, sid: string)
    ensures sid in Unmapped(roles, mapped) <==> sid !in mapped && exists r :: r in roles && r.id == sid
    decreases |roles|
  {
    if roles != [] {
      UnmappedExactly(roles[1..], mapped, sid);
      if r :| r in roles && r.id == sid {
        assert r == roles[0] || r in roles[1..];
      }
    }
  }

  function Future(q: Request): seq<string> {
    Unmapped(Processed(q), Mapped(q))
  }

  function TokenOf(q: Request, sid: string): Token {
    if sid in Mapped(q) then Target(Mapped(q)[sid]) else Source(sid)
  }

  /** Every role the plan knows a source for; any other token is a native role. */
  predicate Owned(q: Request, t: Token) {
    exists sid :: sid in q.raw && TokenOf(q, sid) == t
  }

  predicate Injective<K(!new,==), V(!new,==)>(m: map<K, V>) {
    forall a, b :: a in m && b in m && m[a] == m[b] ==> a == b
  }

  function RoleIds(roles: seq<Role>): (ids: seq<string>)
    ensures |ids| == |roles|
    ensures forall i :: 0 <= i < |roles| ==> ids[i] == roles[i].id
  {
    seq(|roles|, i requires 0 <= i < |roles| => roles[i].id)
  }

  /** Observed ranks, then one provisional rank after them for each role still to be created. */
  function RankAmong(observed: map<string, Option<int>>, ids: seq<string>, t: Token): Option<int> {
    match t
    case Target(id) => if id in observed then observed[id] else None
    case Source(sid) => if sid in ids then Some(|observed| + Position(ids, sid)) else None
  }

  function RankOf(q: Request, t: Token): Option<int> {
    RankAmong(q.observed, Future(q), t)
  }

  function Position(ids: seq<string>, sid: string): nat
    requires sid in ids
  {
    if ids[0] == sid then 0 else 1 + Position(ids[1..], sid)
  }

  function Tokens(observed: map<string, Option<int>>, ids: seq<string>): set<Token> {
    (set id | id in observed :: Target(id)) + (set sid | sid in ids :: Source(sid))
  }

  function AllTokens(q: Request): set<Token> {
    Tokens(q.observed, Future(q))
  }

  predicate RolesComplete(roles: seq<Role>, raw: map<string, int>) {
    && |roles| == |raw| && ToSet(RoleIds(roles)) == raw.Keys
    && forall i :: 0 <= i < |roles| ==> roles[i].position == raw[roles[i].id]
  }

  /** Every rank is known, and no two are equal. */
  predicate RanksClear(observed: map<string, Option<int>>, ids: seq<string>) {
    && (forall t :: t in Tokens(observed, ids) ==> RankAmong(observed, ids, t).Some?)
    && (forall t, u :: t in Tokens(observed, ids) && u in Tokens(observed, ids) ==>
          RankAmong(observed, ids, t) == RankAmong(observed, ids, u) ==> t == u)
  }

  /** The saved role map fits the source roles and the server. */
  predicate MappingSound(q: Request) {
    && q.roleMap.Keys <= q.raw.Keys
    && q.recreating <= q.roleMap.Keys
    && (forall sid :: sid in q.recreating ==> q.roleMap[sid] !in q.observed)
    && (forall sid :: sid in Mapped(q) ==> Mapped(q)[sid] in q.observed)
    && Injective(q.roleMap)
  }

  /** The checks before any rank is moved. */
  predicate Preflight(q: Request) {
    && RolesComplete(q.roles, q.raw)
    && MappingSound(q)
    && (q.orderRoles ==> q.raw.Keys == Mapped(q).Keys)
    && (Future(q) != [] ==> |q.observed| + |Future(q)| <= q.limit)
    && q.raw.Keys - Mapped(q).Keys == ToSet(Future(q))
    && RanksClear(q.observed, Future(q))
  }

  function Ranks(q: Request): map<Token, int>
    requires forall t :: t in AllTokens(q) ==> RankOf(q, t).Some?
  {
    map t | t in AllTokens(q) :: RankOf(q, t).value
  }

  /** The tokens of the processed roles, highest position first, equal positions by id. */
  function Desired(q: Request): seq<Token> {
    var sorted := Sort(Processed(q), HighestFirst);
    seq(|sorted|, i requires 0 <= i < |sorted| => TokenOf(q, sorted[i].id))
  }

  // ----- current order

  predicate IsLowest(ranks: map<Token, int>, among: set<Token>, t: Token)
    requires among <= ranks.Keys
  {
    t in among && forall u :: u in among ==> ranks[t] <= ranks[u]
  }

  lemma {:induction false} HasLowest(ranks: map<Token, int>, among: set<Token>, t: Token)
    requires among <= ranks.Keys && t in among
    ensures exists l :: IsLowest(ranks, among, l)
    decreases |among|
  {
    if u :| u in among && ranks[u] < ranks[t] {
      HasLowest(ranks, among - {t}, u);
      var l :| IsLowest(ranks, among - {t}, l);
      forall v | v in among ensures ranks[l] <= ranks[v] {
        assert v == t || v in among - {t};
      }
      assert IsLowest(ranks, among, l);
    } else {
      assert IsLowest(ranks, among, t);
    }
  }

  lemma NonEmptyHasLowest(ranks: map<Token, int>, among: set<Token>)
    requires among <= ranks.Keys && among != {}
    ensures exists l :: IsLowest(ranks, among, l)
  {
    var t :| t in among;
    HasLowest(ranks, among, t);
  }

  lemma LowestIsUnique(ranks: map<Token, int>, among: set<Token>)
    requires Injective(ranks) && among <= ranks.Keys
    ensures forall t, u :: IsLowest(ranks, among, t) && IsLowest(ranks, among, u) ==> t == u
  {
    forall t, u | IsLowest(ranks, among, t) && IsLowest(ranks, among, u) ensures t == u {
      assert ranks[t] == ranks[u];
    }
  }

  /** `sorted(ranks, key=...)`: ranks are distinct, so the rank alone decides. */
  function ByRank(ranks: map<Token, int>, among: set<Token>): (r: seq<Token>)
    requires Injective(ranks) && among <= ranks.Keys
    ensures forall t :: t in r <==> t in among
    ensures forall i, j :: 0 <= i < j < |r| ==> ranks[r[i]] < ranks[r[j]]
    decreases |among|
  {
    if among == {} then []
    else
      NonEmptyHasLowest(ranks, among);
      LowestIsUnique(ranks, among);
      var t :| t in among && IsLowest(ranks, among, t);
      [t] + ByRank(ranks, among - {t})
  }

  function Index(s: seq<Token>, t: Token): (i: nat)
    requires t in s
    ensures i < |s| && s[i] == t
  {
    if s[0] == t then 0 else 1 + Index(s[1..], t)
  }

  function Renumber(s: seq<Token>): map<Token, int> {
    map t | t in s :: Index(s, t)
  }

  // ----- the preflight makes the rewrite well defined

  ghost predicate FromRaw(roles: seq<Role>, raw: map<string, int>) {
    && NoDuplicates(roles)
    && (forall r :: r in roles ==> r.id in raw && raw[r.id] == r.position)
  }

  lemma RolesFromRaw(q: Request)
    requires RolesComplete(q.roles, q.raw)
    ensures FromRaw(q.roles, q.raw)
  {
    var ids := RoleIds(q.roles);
    assert |q.raw.Keys| == |q.raw|;
    FullSetNoDuplicates(ids);
    forall i, j | 0 <= i < j < |q.roles| ensures q.roles[i] != q.roles[j] {
      assert ids[i] != ids[j];
    }
    forall r | r in q.roles ensures r.id in q.raw && q.raw[r.id] == r.position {
      var i :| 0 <= i < |q.roles| && q.roles[i] == r;
      assert ids[i] in ToSet(ids);
    }
  }

  lemma SortFromRaw(roles: seq<Role>, raw: map<string, int>, le: (Role, Role) -> bool)
    requires FromRaw(roles, raw)
    ensures FromRaw(Sort(roles, le), raw)
  {
    SortPermutes(roles, le);
    SortNoDuplicates(roles, le);
  }

  lemma {:induction false} RecreatedFromRaw(roles: seq<Role>, raw: map<string, int>, recreating: set<string>)
    requires FromRaw(roles, raw)
    ensures FromRaw(RecreatedRoles(roles, recreating), raw)
    ensures forall r :: r in RecreatedRoles(roles, recreating) <==> r in roles && r.id in recreating
  {
    if roles != [] {
      RecreatedFromRaw(roles[1..], raw, recreating);
      assert roles[0] !in roles[1..];
    }
  }

  lemma ProcessedFromRaw(q: Request)
    requires RolesComplete(q.roles, q.raw)
    ensures FromRaw(Processed(q), q.raw)
  {
    RolesFromRaw(q);
    SortFromRaw(q.roles, q.raw, Descending);
    RecreatedFromRaw(q.roles, q.raw, q.recreating);
    SortFromRaw(RecreatedRoles(q.roles, q.recreating), q.raw, ById);
  }

  lemma TokensDiffer(q: Request, a: string, b: string)
    requires Injective(q.roleMap) && a != b
    ensures TokenOf(q, a) != TokenOf(q, b)
  {
  }

  /** Every processed role has a token among the ranked ones. */
  lemma ProcessedIsRanked(q: Request, r: Role)
    requires Preflight(q) && r in Processed(q)
    ensures TokenOf(q, r.id) in AllTokens(q)
  {
    if r.id !in Mapped(q) {
      UnmappedExactly(Processed(q), Mapped(q), r.id);
      assert r.id in Future(q);
    }
  }

  lemma DesiredIsRanked(q: Request)
    requires Preflight(q)
    ensures NoDuplicates(Desired(q))
    ensures forall t :: t in Desired(q) ==> t in AllTokens(q)
  {
    ProcessedFromRaw(q);
    SortFromRaw(Processed(q), q.raw, HighestFirst);
    SortPermutes(Processed(q), HighestFirst);
    var sorted := Sort(Processed(q), HighestFirst);
    var desired := Desired(q);
    forall i, j | 0 <= i < j < |desired| ensures desired[i] != desired[j] {
      assert sorted[i] in sorted && sorted[j] in sorted && sorted[i] != sorted[j];
      assert sorted[i].id != sorted[j].id;
      TokensDiffer(q, sorted[i].id, sorted[j].id);
    }
    forall t | t in desired ensures t in AllTokens(q) {
      var i :| 0 <= i < |desired| && desired[i] == t;
      assert sorted[i] in sorted;
      ProcessedIsRanked(q, sorted[i]);
    }
  }

  lemma HighestFirstTotal()
    ensures TotalOrder(HighestFirst)
  {
    forall a: Role, b: Role
      ensures HighestFirst(a, b) || HighestFirst(b, a)
      ensures HighestFirst(a, b) && HighestFirst(b, a) ==> a == b
    {
      LexTotal(a.id, b.id);
    }
    forall a: Role, b: Role, c: Role | HighestFirst(a, b) && HighestFirst(b, c)
      ensures HighestFirst(a, c)
    {
      if a.position == b.position == c.position {
        LexTransitive(a.id, b.id, c.id);
      }
    }
  }

  // ----- moving ranks

  ghost predicate Ascend(ranks: map<Token, int>, a: Token, b: Token) {
    a in ranks && b in ranks && ranks[a] < ranks[b]
  }

  /** What an accepted reordering promises about the new ranks. */
  ghost predicate KeepsOrder(before: map<Token, int>, native: set<Token>, desired: seq<Token>, after: map<Token, int>) {
    && after.Keys == before.Keys
    && Injective(after)
    && (forall t :: t in native && t in before ==> after[t] == before[t])
    && (forall i, j :: 0 <= i < j < |desired| ==> Ascend(after, desired[i], desired[j]))
  }

  ghost predicate NativesStay(ranks: map<Token, int>, native: set<Token>, final: seq<Token>) {
    forall i :: 0 <= i < |final| && final[i] in native && final[i] in ranks ==> ranks[final[i]] == i
  }

  /** The ranks are untouched when the rewrite changes nothing, and otherwise the new positions. */
  ghost predicate RanksAfter(ranks: map<Token, int>, desired: seq<Token>, after: map<Token, int>)
    requires Injective(ranks)
  {
    var current := ByRank(ranks, ranks.Keys);
    exists final :: IsRewrite(current, desired, final) && after == (if final == current then ranks else Renumber(final))
  }

  /** Exactly when a reordering is accepted: it changes nothing, or no native role would move. */
  ghost predicate Allowed(ranks: map<Token, int>, native: set<Token>, desired: seq<Token>)
    requires Injective(ranks)
  {
    var current := ByRank(ranks, ranks.Keys);
    forall final :: IsRewrite(current, desired, final) ==> final == current || NativesStay(ranks, native, final)
  }

  lemma ByRankNoDuplicates(ranks: map<Token, int>)
    requires Injective(ranks)
    ensures NoDuplicates(ByRank(ranks, ranks.Keys))
  {
    var current := ByRank(ranks, ranks.Keys);
    forall i, j | 0 <= i < j < |current| ensures current[i] != current[j] {
      assert ranks[current[i]] < ranks[current[j]];
    }
  }

  /** After the rewrite the desired tokens stand in the desired order. */
  lemma DesiredAscends(current: seq<Token>, desired: seq<Token>, final: seq<Token>, i: nat, j: nat)
    returns (a: nat, b: nat)
    requires IsRewrite(current, desired, final)
    requires i < j < |desired|
    ensures a < b < |final| && final[a] == desired[i] && final[b] == desired[j]
  {
    var known := ToSet(desired);
    RestrictIsSlots(final, known);
    var slots := Slots(final, known);
    a, b := slots[i], slots[j];
    assert Restrict(final, known)[i] == final[a] && Restrict(final, known)[j] == final[b];
  }

  lemma UnchangedKeepsOrder(ranks: map<Token, int>, native: set<Token>, desired: seq<Token>)
    requires Injective(ranks)
    requires IsRewrite(ByRank(ranks, ranks.Keys), desired, ByRank(ranks, ranks.Keys))
    ensures KeepsOrder(ranks, native, desired, ranks)
  {
    var current := ByRank(ranks, ranks.Keys);
    forall i, j | 0 <= i < j < |desired| ensures Ascend(ranks, desired[i], desired[j]) {
      var a, b := DesiredAscends(current, desired, current, i, j);
      assert current[a] in ranks && current[b] in ranks;
    }
  }

  lemma RenumberedAscends(current: seq<Token>, desired: seq<Token>, final: seq<Token>, i: nat, j: nat)
    requires IsRewrite(current, desired, final) && NoDuplicates(final)
    requires i < j < |desired|
    ensures Ascend(Renumber(final), desired[i], desired[j])
  {
    var a, b := DesiredAscends(current, desired, final, i, j);
    assert Index(final, final[a]) == a && Index(final, final[b]) == b;
  }

  lemma RenumberIsPosition(final: seq<Token>)
    ensures Injective(Renumber(final))
    ensures forall t :: t in final ==> exists i :: 0 <= i < |final| && final[i] == t && Renumber(final)[t] == i
  {
    forall t | t in final ensures exists i :: 0 <= i < |final| && final[i] == t && Renumber(final)[t] == i {
      assert final[Index(final, t)] == t;
    }
  }

  lemma RenumberedKeepsOrder(
    ranks: map<Token, int>, native: set<Token>, desired: seq<Token>, current: seq<Token>, final: seq<Token>)
    requires NoDuplicates(current) && NoDuplicates(desired)
    requires forall t :: t in current <==> t in ranks
    requires forall t :: t in desired ==> t in ranks
    requires IsRewrite(current, desired, final)
    requires NativesStay(ranks, native, final)
    ensures KeepsOrder(ranks, native, desired, Renumber(final))
  {
    var after := Renumber(final);
    RewriteNoDuplicates(current, desired, final);
    RewriteMembers(current, desired, final);
    RenumberIsPosition(final);
    assert after.Keys == ranks.Keys;
    forall i, j | 0 <= i < j < |desired| ensures Ascend(after, desired[i], desired[j]) {
      RenumberedAscends(current, desired, final, i, j);
    }
  }

  lemma OneRewrite(current: seq<Token>, desired: seq<Token>, final: seq<Token>)
    requires IsRewrite(current, desired, final)
    ensures forall other :: IsRewrite(current, desired, other) ==> other == final
  {
    forall other | IsRewrite(current, desired, other) ensures other == final {
      RewriteIsUnique(current, desired, other, final);
    }
  }

  /** The check that no native token changes its rank. */
  method CheckNatives(ranks: map<Token, int>, native: set<Token>, final: seq<Token>) returns (ok: bool)
    requires forall t :: t in final ==> t in ranks
    ensures ok <==> NativesStay(ranks, native, final)
  {
    for i := 0 to |final|
      invariant forall j :: 0 <= j < i && final[j] in native ==> ranks[final[j]] == j
    {
      if final[i] in native && ranks[final[i]] != i {
        return false;
      }
    }
    ok := true;
  }

  /** Puts the desired tokens in order within their slots, refusing to move a native role. */
  method Reorder(ranks: map<Token, int>, native: set<Token>, desired: seq<Token>) returns (r: Option<map<Token, int>>)
    requires Injective(ranks) && NoDuplicates(desired)
    requires forall t :: t in desired ==> t in ranks
    ensures r.Some? <==> Allowed(ranks, native, desired)
    ensures r.Some? ==> KeepsOrder(ranks, native, desired, r.value) && RanksAfter(ranks, desired, r.value)
  {
    var current := ByRank(ranks, ranks.Keys);
    ByRankNoDuplicates(ranks);
    var final := RewriteSlots(current, desired);
    OneRewrite(current, desired, final);
    if final == current {
      UnchangedKeepsOrder(ranks, native, desired);
      return Some(ranks);
    }
    RewriteMembers(current, desired, final);
    var ok := CheckNatives(ranks, native, final);
    if !ok {
      return None;
    }
    RenumberedKeepsOrder(ranks, native, desired, current, final);
    r := Some(Renumber(final));
  }

  // ----- the plan

  predicate Reorders(q: Request) {
    (q.changeRoles || q.orderRoles) && |q.raw| >= 2
  }

  function Natives(q: Request): set<Token> {
    set t | t in AllTokens(q) && !Owned(q, t)
  }

  lemma RankedInjective(q: Request)
    requires Preflight(q)
    ensures Injective(Ranks(q)) && Ranks(q).Keys == AllTokens(q)
  {
    forall a, b | a in Ranks(q) && b in Ranks(q) && Ranks(q)[a] == Ranks(q)[b] ensures a == b {
      assert RankOf(q, a) == RankOf(q, b);
    }
  }

  /** A role on the server that no source role with a kept mapping stands for. */
  predicate Foreign(q: Request, id: string) {
    id in q.observed && !exists sid :: sid in q.raw && sid in q.roleMap && sid !in q.recreating && q.roleMap[sid] == id
  }

  /** The roles still to be created are the source roles without a kept mapping. */
  lemma FutureExactly(q: Request, sid: string)
    requires Preflight(q)
    ensures sid in Future(q) <==> sid in q.raw && (sid !in q.roleMap || sid in q.recreating)
    ensures sid in q.roleMap ==> sid in q.raw
  {
    assert sid in q.raw.Keys - Mapped(q).Keys <==> sid in ToSet(Future(q));
  }

  lemma OwnedExactly(q: Request, id: string)
    ensures Owned(q, Target(id)) <==> exists sid :: sid in q.raw && sid in q.roleMap && sid !in q.recreating && q.roleMap[sid] == id
  {
    if sid :| sid in q.raw && sid in q.roleMap && sid !in q.recreating && q.roleMap[sid] == id {
      assert TokenOf(q, sid) == Target(id);
    }
  }

  lemma NativeExactly(q: Request, t: Token)
    requires Preflight(q)
    ensures t in Natives(q) <==> t.Target? && Foreign(q, t.id)
  {
    if t.Target? {
      OwnedExactly(q, t.id);
    } else {
      FutureExactly(q, t.sid);
      assert t.sid in q.raw && t.sid !in Mapped(q) ==> TokenOf(q, t.sid) == t;
    }
  }

  /** Every foreign role stands at the index that is its observed rank. */
  ghost predicate ForeignStand(q: Request, final: seq<Token>) {
    forall i :: 0 <= i < |final| && final[i].Target? && Foreign(q, final[i].id) ==> q.observed[final[i].id] == Some(i)
  }

  /** Exactly when a reordering is accepted: it changes nothing, or leaves foreign roles alone. */
  ghost predicate Acceptable(q: Request)
    requires forall t :: t in AllTokens(q) ==> RankOf(q, t).Some?
    requires Injective(Ranks(q))
  {
    var current := ByRank(Ranks(q), Ranks(q).Keys);
    forall final :: IsRewrite(current, Desired(q), final) ==> final == current || ForeignStand(q, final)
  }

  lemma RanksAreObserved(q: Request)
    requires Preflight(q)
    ensures forall id :: id in q.observed ==> Target(id) in Ranks(q) && q.observed[id] == Some(Ranks(q)[Target(id)])
  {
    forall id | id in q.observed ensures Target(id) in Ranks(q) && q.observed[id] == Some(Ranks(q)[Target(id)]) {
      assert Target(id) in AllTokens(q) && RankOf(q, Target(id)).Some?;
    }
  }

  lemma StandExactly(q: Request, ranks: map<Token, int>, native: set<Token>, final: seq<Token>)
    requires forall t :: t in native <==> t.Target? && Foreign(q, t.id)
    requires forall id :: id in q.observed ==> Target(id) in ranks && q.observed[id] == Some(ranks[Target(id)])
    ensures NativesStay(ranks, native, final) <==> ForeignStand(q, final)
  {
    if NativesStay(ranks, native, final) {
      forall i | 0 <= i < |final| && final[i].Target? && Foreign(q, final[i].id) ensures q.observed[final[i].id] == Some(i) {
        assert final[i] == Target(final[i].id) && final[i] in native;
      }
    }
    if ForeignStand(q, final) {
      forall i | 0 <= i < |final| && final[i] in native && final[i] in ranks ensures ranks[final[i]] == i {
        assert final[i] == Target(final[i].id);
      }
    }
  }

  lemma AcceptableExactly(q: Request, ranks: map<Token, int>, native: set<Token>)
    requires Preflight(q) && Injective(Ranks(q)) && ranks == Ranks(q) && native == Natives(q)
    ensures Acceptable(q) <==> Allowed(ranks, native, Desired(q))
    ensures (forall id :: !Foreign(q, id)) ==> Acceptable(q)
  {
    forall t ensures t in native <==> t.Target? && Foreign(q, t.id) {
      NativeExactly(q, t);
    }
    RanksAreObserved(q);
    AllowedExactly(q, ranks, native, ByRank(ranks, ranks.Keys), Desired(q));
  }

  lemma AllowedExactly(q: Request, ranks: map<Token, int>, native: set<Token>, current: seq<Token>, desired: seq<Token>)
    requires forall t :: t in native <==> t.Target? && Foreign(q, t.id)
    requires forall id :: id in q.observed ==> Target(id) in ranks && q.observed[id] == Some(ranks[Target(id)])
    ensures (forall final :: IsRewrite(current, desired, final) ==> final == current || NativesStay(ranks, native, final))
            <==> forall final :: IsRewrite(current, desired, final) ==> final == current || ForeignStand(q, final)
  {
    forall final ensures NativesStay(ranks, native, final) <==> ForeignStand(q, final) {
      StandExactly(q, ranks, native, final);
    }
  }

  lemma ForeignStays(q: Request, after: map<Token, int>, id: string)
    requires Preflight(q) && KeepsOrder(Ranks(q), Natives(q), Desired(q), after) && Foreign(q, id)
    ensures Target(id) in after && q.observed[id] == Some(after[Target(id)])
  {
    NativeExactly(q, Target(id));
    assert Target(id) in Ranks(q);
  }

  /** Accepts exactly the well-founded plans that leave foreign roles where they are, and on
      acceptance the processed roles come out highest position first. */
  method PlanRanks(q: Request) returns (r: Result<map<Token, int>, string>)
    ensures !Preflight(q) ==> r.Failure?
    ensures Preflight(q) && !Reorders(q) ==> r == Success(Ranks(q))
    ensures Preflight(q) && Reorders(q) ==>
              && Injective(Ranks(q))
              && (r.Success? <==> Allowed(Ranks(q), Natives(q), Desired(q)))
              && (r.Success? ==> KeepsOrder(Ranks(q), Natives(q), Desired(q), r.value))
              && (r.Success? ==> RanksAfter(Ranks(q), Desired(q), r.value))
    ensures Preflight(q) && (q.changeRoles || q.orderRoles) && |q.raw| >= 2 ==>
              && Injective(Ranks(q))
              && (r.Success? <==> Acceptable(q))
              && ((forall id :: !Foreign(q, id)) ==> r.Success?)
              && (r.Success? ==> forall id :: Foreign(q, id) ==>
                    Target(id) in r.value && q.observed[id] == Some(r.value[Target(id)]))
    ensures Preflight(q) && !((q.changeRoles || q.orderRoles) && |q.raw| >= 2) ==> r.Success?
  {
    if !Preflight(q) {
      return Failure("Resolve every source role before ordering");
    }
    RankedInjective(q);
    var ranks := Ranks(q);
    if !Reorders(q) {
      return Success(ranks);
    }
    DesiredIsRanked(q);
    AcceptableExactly(q, ranks, Natives(q));
    var moved := Reorder(ranks, Natives(q), Desired(q));
    if moved.None? {
      return Failure("Preserve native ranks under existing ordering");
    }
    forall id | Foreign(q, id) ensures Target(id) in moved.value && q.observed[id] == Some(moved.value[Target(id)]) {
      ForeignStays(q, moved.value, id);
    }
    r := Success(moved.value);
  }

  /** Two processed roles of an accepted reordering: the higher position ends in front, and equal
      positions are settled by id. Each stands under its kept mapping, or as a role to be created. */
  lemma ProcessedComeOutSorted(q: Request, ranks: map<Token, int>, a: Role, b: Role)
    requires Preflight(q) && KeepsOrder(Ranks(q), Natives(q), Desired(q), ranks)
    requires a in Processed(q) && b in Processed(q) && a != b
    requires a.position > b.position || (a.position == b.position && LexLe(a.id, b.id))
    ensures Ascend(ranks,
                   if a.id in q.roleMap && a.id !in q.recreating then Target(q.roleMap[a.id]) else Source(a.id),
                   if b.id in q.roleMap && b.id !in q.recreating then Target(q.roleMap[b.id]) else Source(b.id))
  {
    HighestFirstTotal();
    SortPermutes(Processed(q), HighestFirst);
    SortSorts(Processed(q), HighestFirst);
    var sorted := Sort(Processed(q), HighestFirst);
    var i :| 0 <= i < |sorted| && sorted[i] == a;
    var j :| 0 <= j < |sorted| && sorted[j] == b;
    assert i < j;
    assert Desired(q)[i] == TokenOf(q, a.id) && Desired(q)[j] == TokenOf(q, b.id);
  }

  lemma DescendingTotal()
    ensures TotalOrder(Descending)
  {
    forall a: Role, b: Role
      ensures Descending(a, b) || Descending(b, a)
      ensures Descending(a, b) && Descending(b, a) ==> a == b
    {
      LexTotal(a.id, b.id);
    }
    forall a: Role, b: Role, c: Role | Descending(a, b) && Descending(b, c)
      ensures Descending(a, c)
    {
      if a.position == b.position == c.position {
        LexTransitive(c.id, b.id, a.id);
      }
    }
  }

  lemma FrontIsHighest(roles: seq<Role>, all: seq<Role>, n: nat)
    requires Sorted(all, Descending) && multiset(all) == multiset(roles) && n <= |all|
    ensures multiset(all[..n]) <= multiset(roles)
    ensures forall a, b :: a in all[..n] && b in multiset(roles) - multiset(all[..n]) ==> Descending(a, b)
  {
    assert all == all[..n] + all[n..];
    assert multiset(roles) - multiset(all[..n]) == multiset(all[n..]);
    forall a, b | a in all[..n] && b in multiset(all[n..]) ensures Descending(a, b) {
      var i :| 0 <= i < n && all[i] == a;
      assert b in all[n..];
      var j :| n <= j < |all| && all[j] == b;
    }
  }

  /** Which roles a change processes: as many as the limit allows, each above every role left out. */
  lemma ChangedAreTheHighest(q: Request, a: Role, b: Role)
    requires q.changeRoles
    ensures |Processed(q)| == if |q.roles| <= q.limit then |q.roles| else q.limit
    ensures multiset(Processed(q)) <= multiset(q.roles)
    ensures a in Processed(q) && b in multiset(q.roles) - multiset(Processed(q)) ==>
              a.position > b.position || (a.position == b.position && LexLe(b.id, a.id))
  {
    SortPermutes(q.roles, Descending);
    DescendingTotal();
    SortSorts(q.roles, Descending);
    var all := Sort(q.roles, Descending);
    FrontIsHighest(q.roles, all, |Processed(q)|);
    assert Processed(q) == all[..|Processed(q)|];
  }

  /** Which roles are processed otherwise: all when only the order is asked for, else those that are
      recreated. */
  lemma ProcessedExactly(q: Request, r: Role)
    requires Preflight(q) && !q.changeRoles
    ensures r in Processed(q) <==> r in q.roles && (q.orderRoles || r.id in q.recreating)
  {
    SortPermutes(q.roles, Descending);
    RolesFromRaw(q);
    RecreatedFromRaw(q.roles, q.raw, q.recreating);
    SortPermutes(RecreatedRoles(q.roles, q.recreating), ById);
    assert r in Sort(q.roles, Descending) <==> r in multiset(Sort(q.roles, Descending));
    assert r in q.roles <==> r in multiset(q.roles);
    var recreated := RecreatedRoles(q.roles, q.recreating);
    assert r in Sort(recreated, ById) <==> r in multiset(Sort(recreated, ById));
    assert r in recreated <==> r in multiset(recreated);
  }

  // ----- the preflight, from the roles, the map and the observed ranks

  /** Every source role is listed exactly once, at its position in the bound evidence. */
  ghost predicate ListedOnce(roles: seq<Role>, raw: map<string, int>) {
    NoDuplicates(roles) && forall r :: r in roles <==> r.id in raw && raw[r.id] == r.position
  }

  lemma RolesCompleteExactly(q: Request)
    ensures RolesComplete(q.roles, q.raw) <==> ListedOnce(q.roles, q.raw)
  {
    var ids := RoleIds(q.roles);
    if RolesComplete(q.roles, q.raw) {
      RolesFromRaw(q);
      forall r: Role | r.id in q.raw && q.raw[r.id] == r.position ensures r in q.roles {
        assert r.id in ToSet(ids);
        var i :| 0 <= i < |ids| && ids[i] == r.id;
        assert q.roles[i] == r;
      }
    }
    if ListedOnce(q.roles, q.raw) {
      forall i | 0 <= i < |q.roles| ensures q.roles[i].id in q.raw && q.raw[q.roles[i].id] == q.roles[i].position {
        assert q.roles[i] in q.roles;
      }
      forall sid | sid in q.raw ensures sid in ids {
        var i :| 0 <= i < |q.roles| && q.roles[i] == Role(sid, q.raw[sid]);
        assert ids[i] == sid;
      }
      assert ToSet(ids) == q.raw.Keys;
      NoDuplicatesLength(ids);
    }
  }

  /** The source roles without a kept mapping. */
  function Missing(q: Request): set<string> {
    set sid | sid in q.raw && (sid !in q.roleMap || sid in q.recreating)
  }

  lemma {:induction false} UnmappedNoDuplicates(roles: seq<Role>, raw: map<string, int>, mapped: map<string, string>)
    requires FromRaw(roles, raw)
    ensures NoDuplicates(Unmapped(roles, mapped))
    decreases |roles|
  {
    if roles != [] {
      var rest := roles[1..];
      assert forall r :: r in rest ==> r in roles;
      UnmappedNoDuplicates(rest, raw, mapped);
      UnmappedExactly(rest, mapped, roles[0].id);
      forall r | r in rest ensures r.id != roles[0].id {
        assert r in roles && r != roles[0];
      }
    }
  }

  /** Every source role without a kept mapping is processed. */
  ghost predicate AllProcessed(missing: set<string>, processed: seq<Role>) {
    forall sid :: sid in missing ==> exists r :: r in processed && r.id == sid
  }

  lemma UnmappedIsMissing(processed: seq<Role>, raw: map<string, int>, mapped: map<string, string>, missing: set<string>)
    requires FromRaw(processed, raw) && missing == raw.Keys - mapped.Keys
    ensures var ids := Unmapped(processed, mapped);
            && NoDuplicates(ids)
            && (missing == ToSet(ids) <==> AllProcessed(missing, processed))
            && (missing == ToSet(ids) ==> |ids| == |missing|)
  {
    var ids := Unmapped(processed, mapped);
    UnmappedNoDuplicates(processed, raw, mapped);
    NoDuplicatesLength(ids);
    forall sid ensures sid in ids <==> sid in missing && exists r :: r in processed && r.id == sid {
      UnmappedExactly(processed, mapped, sid);
    }
  }

  lemma MissingExactly(q: Request)
    ensures Missing(q) == q.raw.Keys - Mapped(q).Keys
  {
  }

  lemma FutureIsMissing(q: Request)
    requires RolesComplete(q.roles, q.raw)
    ensures q.raw.Keys - Mapped(q).Keys == ToSet(Future(q)) <==> AllProcessed(Missing(q), Processed(q))
    ensures NoDuplicates(Future(q))
    ensures q.raw.Keys - Mapped(q).Keys == ToSet(Future(q)) ==> |Future(q)| == |Missing(q)|
  {
    ProcessedFromRaw(q);
    MissingExactly(q);
    UnmappedIsMissing(Processed(q), q.raw, Mapped(q), Missing(q));
  }

  lemma {:induction false} PositionIsIndex(ids: seq<string>, i: nat)
    requires NoDuplicates(ids) && i < |ids|
    ensures Position(ids, ids[i]) == i
    decreases |ids|
  {
    if i > 0 {
      assert ids[0] != ids[i];
      PositionIsIndex(ids[1..], i - 1);
    }
  }

  /** Observed ranks are known, differ, and leave the ranks of the roles to be created free. */
  ghost predicate RanksDiffer(observed: map<string, Option<int>>, created: nat) {
    && (forall id :: id in observed ==> observed[id].Some?)
    && (forall a, b :: a in observed && b in observed && observed[a] == observed[b] ==> a == b)
    && (forall id :: id in observed ==> !(|observed| <= observed[id].value < |observed| + created))
  }

  lemma SourceRankAt(observed: map<string, Option<int>>, ids: seq<string>, i: nat)
    requires NoDuplicates(ids) && i < |ids|
    ensures Source(ids[i]) in Tokens(observed, ids) && RankAmong(observed, ids, Source(ids[i])) == Some(|observed| + i)
  {
    PositionIsIndex(ids, i);
  }

  lemma SourceRank(observed: map<string, Option<int>>, ids: seq<string>, sid: string) returns (i: nat)
    requires NoDuplicates(ids) && sid in ids
    ensures i < |ids| && ids[i] == sid && RankAmong(observed, ids, Source(sid)) == Some(|observed| + i)
  {
    i :| 0 <= i < |ids| && ids[i] == sid;
    SourceRankAt(observed, ids, i);
  }

  lemma RanksClearExactly(observed: map<string, Option<int>>, ids: seq<string>)
    requires NoDuplicates(ids)
    ensures RanksClear(observed, ids) <==> RanksDiffer(observed, |ids|)
  {
    if RanksClear(observed, ids) {
      forall id | id in observed ensures observed[id].Some? && !(|observed| <= observed[id].value < |observed| + |ids|) {
        assert Target(id) in Tokens(observed, ids) && RankAmong(observed, ids, Target(id)) == observed[id];
        var i := observed[id].value - |observed|;
        if 0 <= i < |ids| {
          SourceRankAt(observed, ids, i);
        }
      }
      forall a, b | a in observed && b in observed && observed[a] == observed[b] ensures a == b {
        assert RankAmong(observed, ids, Target(a)) == RankAmong(observed, ids, Target(b));
        assert Target(a) in Tokens(observed, ids) && Target(b) in Tokens(observed, ids);
      }
    }
    if RanksDiffer(observed, |ids|) {
      forall t | t in Tokens(observed, ids)
        ensures RankAmong(observed, ids, t).Some?
        ensures t.Source? ==> exists i :: 0 <= i < |ids| && ids[i] == t.sid && RankAmong(observed, ids, t) == Some(|observed| + i)
        ensures t.Target? ==> t.id in observed && RankAmong(observed, ids, t) == observed[t.id]
      {
        if t.Source? {
          var i := SourceRank(observed, ids, t.sid);
        }
      }
    }
  }

  /** Each source role is mapped to a server role of its own, or to none there if it is recreated. */
  ghost predicate MapsOneToOne(q: Request) {
    && (forall sid :: sid in q.roleMap ==> sid in q.raw && (q.roleMap[sid] in q.observed <==> sid !in q.recreating))
    && (forall sid :: sid in q.recreating ==> sid in q.roleMap)
    && (forall a, b :: a in q.roleMap && b in q.roleMap && q.roleMap[a] == q.roleMap[b] ==> a == b)
  }

  lemma MappingSoundExactly(q: Request)
    ensures MappingSound(q) <==> MapsOneToOne(q)
    ensures MappingSound(q) ==> (q.raw.Keys == Mapped(q).Keys <==> Missing(q) == {})
  {
    forall sid ensures sid in Mapped(q) <==> sid in q.roleMap && sid !in q.recreating {
    }
    assert forall sid :: sid in Missing(q) <==> sid in q.raw && sid !in Mapped(q);
  }

  /** Exactly which requests pass the checks: every source role is listed once with its position, the
      mapping is one to one into the server's roles but for those recreated, every role without a kept
      mapping is within what is processed and fits the limit, and all ranks are known and different. */
  lemma PreflightExactly(q: Request)
    ensures Preflight(q) <==>
              && ListedOnce(q.roles, q.raw)
              && MapsOneToOne(q)
              && (q.orderRoles ==> Missing(q) == {})
              && (Missing(q) != {} ==> |q.observed| + |Missing(q)| <= q.limit)
              && AllProcessed(Missing(q), Processed(q))
              && RanksDiffer(q.observed, |Missing(q)|)
  {
    RolesCompleteExactly(q);
    if RolesComplete(q.roles, q.raw) {
      FutureIsMissing(q);
      MissingExactly(q);
      MappingSoundExactly(q);
      RanksClearExactly(q.observed, Future(q));
    }
  }

  lemma {:induction false} UnmappedKeepsOrder(roles: seq<Role>, mapped: map<string, string>, i: nat, j: nat) returns (a: nat, b: nat)
    requires i < j < |roles| && roles[i].id !in mapped && roles[j].id !in mapped
    ensures var ids := Unmapped(roles, mapped); a < b < |ids| && ids[a] == roles[i].id && ids[b] == roles[j].id
    decreases |roles|
  {
    var rest := roles[1..];
    var n := if roles[0].id in mapped then 0 else 1;
    if i > 0 {
      a, b := UnmappedKeepsOrder(rest, mapped, i - 1, j - 1);
      a, b := a + n, b + n;
    } else {
      UnmappedExactly(rest, mapped, roles[j].id);
      assert rest[j - 1] in rest;
      b :| 0 <= b < |Unmapped(rest, mapped)| && Unmapped(rest, mapped)[b] == roles[j].id;
      a, b := 0, b + 1;
    }
  }

  /** A role to be created ranks before those processed after it. */
  lemma CreatedInOrder(q: Request, i: nat, j: nat)
    requires Preflight(q) && i < j < |Processed(q)|
    requires Processed(q)[i].id in Missing(q) && Processed(q)[j].id in Missing(q)
    ensures Ascend(Ranks(q), Source(Processed(q)[i].id), Source(Processed(q)[j].id))
  {
    FutureIsMissing(q);
    var a, b := UnmappedKeepsOrder(Processed(q), Mapped(q), i, j);
    SourceRankAt(q.observed, Future(q), a);
    SourceRankAt(q.observed, Future(q), b);
  }

  lemma CreatedRank(q: Request, sid: string)
    requires Preflight(q)
    ensures Source(sid) in Ranks(q) <==> sid in Missing(q)
    ensures sid in Missing(q) ==> |q.observed| <= Ranks(q)[Source(sid)] < |q.observed| + |Missing(q)|
  {
    FutureIsMissing(q);
    FutureExactly(q, sid);
    if sid in Future(q) {
      var i := SourceRank(q.observed, Future(q), sid);
    }
  }

  /** The ranks before any reordering: the observed ones, and after them one for each role still to be
      created. */
  lemma RanksExactly(q: Request)
    requires Preflight(q)
    ensures forall id :: Target(id) in Ranks(q) <==> id in q.observed
    ensures forall id :: id in q.observed ==> q.observed[id] == Some(Ranks(q)[Target(id)])
    ensures forall sid :: Source(sid) in Ranks(q) <==> sid in Missing(q)
    ensures forall sid :: sid in Missing(q) ==> |q.observed| <= Ranks(q)[Source(sid)] < |q.observed| + |Missing(q)|
  {
    RanksAreObserved(q);
    forall sid {
      CreatedRank(q, sid);
    }
  }
}
