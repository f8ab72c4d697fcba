/**
 `_state_to_dict`, `_dict_to_state` and the id check of `load_state`: saving a state and loading it
 again. Fields that are saved as they are and never checked are kept together in `plain`.
 */
module StateCodec {
  import opened Common
  import opened SavedJson
  import opened ReceiptCodec
  import Delivery

  datatype Failed = Failed(
    messageId: string, channelId: string, error: string, retryCount: int, preview: string, ref: Option<Reference>)

  datatype Trouble = Trouble(entity: string, id: string, error: string, httpStatus: Option<int>)

  datatype Rollback = Rollback(
    channels: int, roles: int, emoji: int, untracked: int, categoriesCleaned: bool,
    ids: set<string>, failures: seq<Trouble>, startedAt: string, completedAt: string)

  /** The identities, maps and sets of a state. */
  datatype Core = Core(
    namespace: string,
    serviceDigest: string,
    bookkeeping: map<string, string>,
    pending: map<string, string>,
    roleMap: map<string, string>,
    completedAt: string,
    completedChannels: set<string>,
    referencedAutumn: set<string>,
    rolesFinalized: set<string>,
    presentUnknown: set<string>
  )

  /** The fields that are saved and loaded as they are, and whose ids are checked after loading. */
  datatype Targets = Targets(
    server: Json,
    channels: Json,
    parents: Json,
    categories: Json,
    emoji: Json,
    messages: Json,
    indexMessages: Json,
    reactions: Json,
    rewrites: Json,
    dryRun: Json
  )

  /** The members of a state file that have a place of their own here. */
  const OWN_MEMBERS: set<string> := {
    "delivery_namespace", "delivery_service_digest", "delivery_bookkeeping", "pending_delivery_replacements",
    "role_map", "completed_at", "completed_channel_ids", "referenced_autumn_ids", "roles_finalized",
    "forum_index_present_unknown_id", "pending_pins", "failed_messages", "rollback_progress",
    "stoat_server_id", "channel_map", "thread_parent_ids", "category_map", "emoji_map", "message_map",
    "forum_index_message_ids", "pending_reactions", "pending_emoji_rewrites", "is_dry_run", "staged_input"
  }

  type PlainName = n: string | n !in OWN_MEMBERS witness ""

  datatype State = State(
    core: Core,
    targets: Targets,
    pins: seq<(string, string)>,
    failed: seq<Failed>,
    rollback: Option<Rollback>,
    plain: map<PlainName, Json>
  )

  /** `state.json` and `message_map.json`. */
  datatype Files = Files(state: Json, messageMap: Json)

  // ----- small values

  function Get(m: map<Name, Json>, name: Name, default: Json): Json {
    if name in m then m[name] else default
  }

  function EncodeTextMap(m: map<string, string>): Json {
    Object(map k | k in m :: Other(k) := Text(m[k]))
  }

  predicate IsTextMap(v: Json) {
    v.Object? && forall n :: n in v.members ==> n.Other? && v.members[n].Text?
  }

  function DecodeTextMap(v: Json): map<string, string>
    requires IsTextMap(v)
  {
    map n | n in v.members :: n.text := v.members[n].s
  }

  lemma TextMapRoundTrip(m: map<string, string>)
    ensures IsTextMap(EncodeTextMap(m)) && DecodeTextMap(EncodeTextMap(m)) == m
  {
    var v := EncodeTextMap(m);
    forall k | k in m ensures Other(k) in v.members {
    }
    assert forall k :: k in DecodeTextMap(v) <==> k in m;
  }

  predicate IsTextList(v: Json) {
    v.List? && forall i :: 0 <= i < |v.items| ==> v.items[i].Text?
  }

  /** A set is saved as a list in some order. */
  predicate Orders(list: seq<string>, s: set<string>) {
    ToSet(list) == s && |list| == |s|
  }

  function DecodeTextSet(v: Json): set<string>
    requires IsTextList(v)
  {
    ToSet(Texts(v.items))
  }

  lemma TextSetRoundTrip(list: seq<string>, s: set<string>)
    requires Orders(list, s)
    ensures IsTextList(List(EncodeTexts(list))) && DecodeTextSet(List(EncodeTexts(list))) == s
  {
    assert Texts(EncodeTexts(list)) == list;
  }

  function EncodePin(p: (string, string)): Json {
    List([Text(p.0), Text(p.1)])
  }

  function EncodePins(ps: seq<(string, string)>): (r: seq<Json>)
    ensures |r| == |ps| && forall i :: 0 <= i < |ps| ==> r[i] == EncodePin(ps[i])
  {
    seq(|ps|, i requires 0 <= i < |ps| => EncodePin(ps[i]))
  }

  /** Entries that are not pairs are dropped. */
  function DecodePins(vs: seq<Json>): Option<seq<(string, string)>> {
    if vs == [] then Some([])
    else
      var n := |vs| - 1;
      var before, v := DecodePins(vs[..n]), vs[n];
      if before.None? || !v.List? then None
      else if |v.items| != 2 then before
      else if IsTextList(v) then Some(before.value + [(v.items[0].s, v.items[1].s)])
      else None
  }

  lemma {:induction false} PinsRoundTrip(ps: seq<(string, string)>)
    ensures DecodePins(EncodePins(ps)) == Some(ps)
  {
    if ps != [] {
      var n := |ps| - 1;
      PinsRoundTrip(ps[..n]);
      assert EncodePins(ps)[..n] == EncodePins(ps[..n]);
      assert ps == ps[..n] + [ps[n]];
    }
  }

  // ----- failed messages

  function EncodeFailed(f: Failed): Json {
    Object(map[
      DiscordMsgId := Text(f.messageId), StoatChannelId := Text(f.channelId), Error := Text(f.error),
      RetryCount := Int(f.retryCount), ContentPreview := Text(f.preview),
      DeliveryRef := if f.ref.Some? then EncodeRef(f.ref.value) else Null])
  }

  /** A failure's reference is well formed and about the failed message. */
  predicate RefAgrees(f: Failed) {
    f.ref.Some? ==>
      && WellFormedRef(f.ref.value)
      && f.ref.value.sourceMessage == f.messageId
      && f.ref.value.destination == f.channelId
  }

  /** The members `FailedMessage` can be built from. */
  predicate HasFailedMembers(v: Json) {
    && v.Object?
    && v.members.Keys <= {DiscordMsgId, StoatChannelId, Error, RetryCount, ContentPreview, DeliveryRef}
    && DiscordMsgId in v.members && v.members[DiscordMsgId].Text?
    && StoatChannelId in v.members && v.members[StoatChannelId].Text?
    && Error in v.members && v.members[Error].Text?
    && Get(v.members, RetryCount, Int(0)).Int?
    && Get(v.members, ContentPreview, Text("")).Text?
  }

  /** `_decode_failed_message` */
  function DecodeFailed(v: Json): Option<Failed> {
    if !HasFailedMembers(v) then None
    else
      var m := v.members;
      var saved := Get(m, DeliveryRef, Null);
      var ref := if saved.Null? then None else DecodeRef(saved);
      var f := Failed(m[DiscordMsgId].s, m[StoatChannelId].s, m[Error].s,
                      Get(m, RetryCount, Int(0)).i, Get(m, ContentPreview, Text("")).s, ref);
      if (saved.Null? || ref.Some?) && RefAgrees(f) then Some(f) else None
  }

  lemma FailedRoundTrip(f: Failed)
    ensures DecodeFailed(EncodeFailed(f)) == if RefAgrees(f) then Some(f) else None
  {
    var v := EncodeFailed(f);
    assert HasFailedMembers(v);
    if f.ref.Some? {
      RefRoundTrip(f.ref.value);
    }
  }

  function EncodeFailures(fs: seq<Failed>): (r: seq<Json>)
    ensures |r| == |fs| && forall i :: 0 <= i < |fs| ==> r[i] == EncodeFailed(fs[i])
  {
    seq(|fs|, i requires 0 <= i < |fs| => EncodeFailed(fs[i]))
  }

  function DecodeFailures(vs: seq<Json>): Option<seq<Failed>> {
    if vs == [] then Some([])
    else
      var n := |vs| - 1;
      var before, f := DecodeFailures(vs[..n]), DecodeFailed(vs[n]);
      if before.Some? && f.Some? then Some(before.value + [f.value]) else None
  }

  predicate RefsAgree(fs: seq<Failed>) {
    forall f :: f in fs ==> RefAgrees(f)
  }

  lemma DecodeOneMore(vs: seq<Json>, before: Option<seq<Failed>>, f: Option<Failed>)
    requires vs != [] && DecodeFailures(vs[..|vs| - 1]) == before && DecodeFailed(vs[|vs| - 1]) == f
    ensures DecodeFailures(vs) == if before.Some? && f.Some? then Some(before.value + [f.value]) else None
  {
  }

  lemma RefsAgreeSplit(fs: seq<Failed>, n: nat)
    requires |fs| == n + 1
    ensures RefsAgree(fs) <==> RefsAgree(fs[..n]) && RefAgrees(fs[n])
  {
    assert fs == fs[..n] + [fs[n]];
    assert fs[n] in fs;
  }

  function Agreed(fs: seq<Failed>): Option<seq<Failed>> {
    if RefsAgree(fs) then Some(fs) else None
  }

  lemma AgreedOneMore(fs: seq<Failed>, n: nat)
    requires |fs| == n + 1
    ensures Agreed(fs) == if Agreed(fs[..n]).Some? && RefAgrees(fs[n]) then Some(fs[..n] + [fs[n]]) else None
  {
    RefsAgreeSplit(fs, n);
    assert fs == fs[..n] + [fs[n]];
  }

  lemma {:induction false} FailuresRoundTrip(fs: seq<Failed>)
    ensures DecodeFailures(EncodeFailures(fs)) == Agreed(fs)
  {
    if fs != [] {
      var n := |fs| - 1;
      var vs := EncodeFailures(fs);
      FailuresRoundTrip(fs[..n]);
      FailedRoundTrip(fs[n]);
      AgreedOneMore(fs, n);
      assert vs[..n] == EncodeFailures(fs[..n]);
      DecodeOneMore(vs, Agreed(fs[..n]), if RefAgrees(fs[n]) then Some(fs[n]) else None);
    }
  }

  // ----- the rollback record

  function EncodeTrouble(t: Trouble): Json {
    Object(map[
      EntityType := Text(t.entity), StoatId := Text(t.id), Error := Text(t.error),
      HttpStatus := if t.httpStatus.Some? then Int(t.httpStatus.value) else Null])
  }

  /** The members `RollbackFailure` can be built from. */
  function DecodeTrouble(v: Json): Option<Trouble> {
    if !v.Object? || !({EntityType, StoatId, Error} <= v.members.Keys <= {EntityType, StoatId, Error, HttpStatus}) then None
    else
      var m := v.members;
      var status := Get(m, HttpStatus, Null);
      if m[EntityType].Text? && m[StoatId].Text? && m[Error].Text? && (status.Null? || status.Int?)
      then Some(Trouble(m[EntityType].s, m[StoatId].s, m[Error].s, if status.Int? then Some(status.i) else None))
      else None
  }

  function EncodeTroubles(ts: seq<Trouble>): (r: seq<Json>)
    ensures |r| == |ts| && forall i :: 0 <= i < |ts| ==> r[i] == EncodeTrouble(ts[i])
  {
    seq(|ts|, i requires 0 <= i < |ts| => EncodeTrouble(ts[i]))
  }

  function DecodeTroubles(vs: seq<Json>): Option<seq<Trouble>> {
    if vs == [] then Some([])
    else
      var n := |vs| - 1;
      var before, t := DecodeTroubles(vs[..n]), DecodeTrouble(vs[n]);
      if before.Some? && t.Some? then Some(before.value + [t.value]) else None
  }

  lemma TroubleRoundTrip(t: Trouble)
    ensures DecodeTrouble(EncodeTrouble(t)) == Some(t)
  {
    assert EncodeTrouble(t).members.Keys == {EntityType, StoatId, Error, HttpStatus};
  }

  lemma {:induction false} TroublesRoundTrip(ts: seq<Trouble>)
    ensures DecodeTroubles(EncodeTroubles(ts)) == Some(ts)
  {
    if ts != [] {
      var n := |ts| - 1;
      TroublesRoundTrip(ts[..n]);
      TroubleRoundTrip(ts[n]);
      assert EncodeTroubles(ts)[..n] == EncodeTroubles(ts[..n]);
      assert ts == ts[..n] + [ts[n]];
    }
  }

  /** `ids` is the order in which the id set is written. */
  function EncodeRollback(r: Rollback, ids: seq<string>): Json {
    Object(map[
      ChannelsDeleted := Int(r.channels), RolesDeleted := Int(r.roles), EmojiDeleted := Int(r.emoji),
      UntrackedChannelsDeleted := Int(r.untracked), CategoriesCleaned := Bool(r.categoriesCleaned),
      RolledBackIds := List(EncodeTexts(ids)), Failures := List(EncodeTroubles(r.failures)),
      StartedAt := Text(r.startedAt), CompletedAt := Text(r.completedAt)])
  }

  predicate HasRollbackMembers(m: map<Name, Json>) {
    && Get(m, ChannelsDeleted, Int(0)).Int? && Get(m, RolesDeleted, Int(0)).Int? && Get(m, EmojiDeleted, Int(0)).Int?
    && Get(m, UntrackedChannelsDeleted, Int(0)).Int? && Get(m, CategoriesCleaned, Bool(false)).Bool?
    && IsTextList(Get(m, RolledBackIds, List([]))) && Get(m, Failures, List([])).List?
    && Get(m, StartedAt, Text("")).Text? && Get(m, CompletedAt, Text("")).Text?
  }

  function DecodeRollback(v: Json): Option<Rollback> {
    if !v.Object? || !HasRollbackMembers(v.members) then None
    else
      var m := v.members;
      var failures := DecodeTroubles(Get(m, Failures, List([])).items);
      if failures.None? then None
      else Some(Rollback(
        Get(m, ChannelsDeleted, Int(0)).i, Get(m, RolesDeleted, Int(0)).i, Get(m, EmojiDeleted, Int(0)).i,
        Get(m, UntrackedChannelsDeleted, Int(0)).i, Get(m, CategoriesCleaned, Bool(false)).b,
        DecodeTextSet(Get(m, RolledBackIds, List([]))), failures.value,
        Get(m, StartedAt, Text("")).s, Get(m, CompletedAt, Text("")).s))
  }

  lemma RollbackRoundTrip(r: Rollback, ids: seq<string>)
    requires Orders(ids, r.ids)
    ensures DecodeRollback(EncodeRollback(r, ids)) == Some(r)
  {
    TextSetRoundTrip(ids, r.ids);
    TroublesRoundTrip(r.failures);
  }

  // ----- saving

  /** `_delivery_map` */
  predicate IsDeliveryMap(m: map<string, string>, messages: bool) {
    forall k :: k in m ==> IsHex(k, 64) && if messages then Delivery.IsStoatId(m[k]) else IsHex(m[k], 32)
  }

  /** `_validate_delivery_binding` */
  predicate IsBound(c: Core) {
    || (c.bookkeeping == map[] && c.pending == map[] && c.namespace == "" && c.serviceDigest == "")
    || (IsHex(c.namespace, 32) && IsHex(c.serviceDigest, 64))
  }

  predicate DeliveriesAreValid(c: Core) {
    IsBound(c) && IsDeliveryMap(c.bookkeeping, true) && IsDeliveryMap(c.pending, false)
  }

  /** The orders in which the sets of a state are written. */
  datatype Listing = Listing(
    completedChannels: seq<string>, referencedAutumn: seq<string>, rolesFinalized: seq<string>,
    presentUnknown: seq<string>, rolledBack: seq<string>)

  ghost predicate Lists(o: Listing, s: State) {
    && Orders(o.completedChannels, s.core.completedChannels)
    && Orders(o.referencedAutumn, s.core.referencedAutumn)
    && Orders(o.rolesFinalized, s.core.rolesFinalized)
    && Orders(o.presentUnknown, s.core.presentUnknown)
    && (s.rollback.Some? ==> Orders(o.rolledBack, s.rollback.value.ids))
  }

  /** The members that have a form of their own, with their values in this order. */
  function Named(a: seq<Json>): map<Name, Json>
    requires |a| == 13
  {
    map[
      DeliveryNamespace := a[0],
      DeliveryServiceDigest := a[1],
      DeliveryBookkeeping := a[2],
      PendingDeliveryReplacements := a[3],
      RoleMap := a[4],
      CompletedAt := a[5],
      CompletedChannelIds := a[6],
      ReferencedAutumnIds := a[7],
      RolesFinalized := a[8],
      ForumIndexPresentUnknownId := a[9],
      PendingPins := a[10],
      FailedMessages := a[11],
      RollbackProgress := a[12]]
  }

  function Values(s: State, o: Listing): (r: seq<Json>)
    ensures |r| == 13
  {
    [
      Text(s.core.namespace),
      Text(s.core.serviceDigest),
      EncodeTextMap(s.core.bookkeeping),
      EncodeTextMap(s.core.pending),
      EncodeTextMap(s.core.roleMap),
      Text(s.core.completedAt),
      List(EncodeTexts(o.completedChannels)),
      List(EncodeTexts(o.referencedAutumn)),
      List(EncodeTexts(o.rolesFinalized)),
      List(EncodeTexts(o.presentUnknown)),
      List(EncodePins(s.pins)),
      List(EncodeFailures(s.failed)),
      if s.rollback.Some? then EncodeRollback(s.rollback.value, o.rolledBack) else Null
    ]
  }

  /** The checked fields; the message map goes into a file of its own. */
  function NamedTargets(t: Targets): map<Name, Json> {
    map[
      StoatServerId := t.server,
      ChannelMap := t.channels,
      ThreadParentIds := t.parents,
      CategoryMap := t.categories,
      EmojiMap := t.emoji,
      ForumIndexMessageIds := t.indexMessages,
      PendingReactions := t.reactions,
      PendingEmojiRewrites := t.rewrites,
      IsDryRun := t.dryRun]
  }

  function PlainMembers(plain: map<PlainName, Json>): map<Name, Json> {
    map k | k in plain :: Other(k) := plain[k]
  }

  function Members(s: State, o: Listing): map<Name, Json> {
    PlainMembers(s.plain) + NamedTargets(s.targets) + Named(Values(s, o))
  }

  /** `_state_to_dict` and the two documents made of it; None is its refusal. */
  function Save(s: State, o: Listing): Option<Files> {
    if DeliveriesAreValid(s.core) then Some(Files(Object(Members(s, o)), s.targets.messages)) else None
  }

  // ----- loading

  predicate HasCore(m: map<Name, Json>) {
    && Get(m, DeliveryNamespace, Text("")).Text? && Get(m, DeliveryServiceDigest, Text("")).Text?
    && IsTextMap(Get(m, DeliveryBookkeeping, Object(map[])))
    && IsTextMap(Get(m, PendingDeliveryReplacements, Object(map[])))
    && IsTextMap(Get(m, RoleMap, Object(map[])))
    && Get(m, CompletedAt, Text("")).Text?
    && IsTextList(Get(m, CompletedChannelIds, List([]))) && IsTextList(Get(m, ReferencedAutumnIds, List([])))
    && IsTextList(Get(m, RolesFinalized, List([]))) && IsTextList(Get(m, ForumIndexPresentUnknownId, List([])))
  }

  function CoreOf(m: map<Name, Json>): Core
    requires HasCore(m)
  {
    Core(
      Get(m, DeliveryNamespace, Text("")).s, Get(m, DeliveryServiceDigest, Text("")).s,
      DecodeTextMap(Get(m, DeliveryBookkeeping, Object(map[]))),
      DecodeTextMap(Get(m, PendingDeliveryReplacements, Object(map[]))),
      DecodeTextMap(Get(m, RoleMap, Object(map[]))),
      Get(m, CompletedAt, Text("")).s,
      DecodeTextSet(Get(m, CompletedChannelIds, List([]))), DecodeTextSet(Get(m, ReferencedAutumnIds, List([]))),
      DecodeTextSet(Get(m, RolesFinalized, List([]))), DecodeTextSet(Get(m, ForumIndexPresentUnknownId, List([]))))
  }

  /** Whether the roles of an older completed migration are taken as finalized. */
  predicate Seeds(c: Core) {
    c.completedAt != "" && c.roleMap != map[] && c.rolesFinalized == {}
  }

  function Seed(c: Core): Core {
    if Seeds(c) then c.(rolesFinalized := c.roleMap.Keys) else c
  }

  // ----- the id check

  predicate IsSnowflake(s: string) {
    1 <= |s| <= 20 && forall i :: 0 <= i < |s| ==> '0' <= s[i] <= '9'
  }

  /** A Stoat category id: a token of at most 32 characters. */
  predicate IsCategoryId(s: string) {
    1 <= |s| <= 32 && forall i :: 0 <= i < |s| ==> TokenCharacter(s[i])
  }

  const DRY_KINDS: set<string> := {"dry-ch-", "dry-role-", "dry-emoji-", "dry-msg-", "dry-server-", "dry-avatar-"}

  /** The placeholder a dry run writes for an id. */
  predicate IsDryPlaceholder(s: string) {
    exists k :: k in DRY_KINDS && k < s && forall i :: |k| <= i < |s| ==> TokenCharacter(s[i])
  }

  const DRY_CATEGORY: string := "dry-cat-"

  predicate IsDryCategory(s: string) {
    DRY_CATEGORY < s && forall i :: |DRY_CATEGORY| <= i < |s| ==> s[i] as int >= 0x20 && s[i] as int != 0x7F
  }

  /** What an id may look like: which pattern, and whether placeholders are allowed. */
  datatype Pattern = Ulid | FileId | CategoryId

  predicate Matches(p: Pattern, dry: bool, s: string) {
    match p
    case Ulid => Delivery.IsStoatId(s) || (dry && IsDryPlaceholder(s))
    case FileId => IsToken(s) || (dry && IsDryPlaceholder(s))
    case CategoryId => IsCategoryId(s) || (dry && IsDryCategory(s))
  }

  predicate IsTarget(p: Pattern, dry: bool, v: Json) {
    v.Text? && Matches(p, dry, v.s)
  }

  /** A Discord id, or a key Ferry makes with this prefix. */
  predicate IsSourceKey(n: Name, prefix: string) {
    n.Other? && (IsSnowflake(n.text) || (prefix != "" && prefix < n.text))
  }

  /** `_check_map` */
  predicate IsTargetMap(v: Json, p: Pattern, dry: bool, prefix: string) {
    v.Object? && forall n :: n in v.members ==> IsSourceKey(n, prefix) && IsTarget(p, dry, v.members[n])
  }

  predicate AreParents(v: Json) {
    v.Object? && forall n :: n in v.members ==>
      IsSourceKey(n, "") && v.members[n].Text? && IsSnowflake(v.members[n].s)
  }

  predicate AreIndexMessages(v: Json, dry: bool) {
    v.Object? && forall n :: n in v.members ==> IsTarget(Ulid, dry, v.members[n])
  }

  predicate IsReaction(v: Json, dry: bool) {
    && v.Object?
    && IsTarget(Ulid, dry, Get(v.members, ChannelId, Null))
    && IsTarget(Ulid, dry, Get(v.members, MessageId, Null))
    && Get(v.members, Emoji, Null).Text? && Get(v.members, Emoji, Null).s != ""
  }

  /** An empty object or text in place of the list has no entry to refuse. */
  predicate AreReactions(v: Json, dry: bool) {
    || (v.List? && forall i :: 0 <= i < |v.items| ==> IsReaction(v.items[i], dry))
    || v == Object(map[]) || v == Text("")
  }

  predicate AreRewrites(v: Json, dry: bool) {
    v.Object? && forall n :: n in v.members ==>
      && IsSourceKey(n, "")
      && v.members[n].Object?
      && IsTarget(FileId, dry, Get(v.members[n].members, Old, Null))
      && IsTarget(FileId, dry, Get(v.members[n].members, New, Null))
  }

  predicate TargetsAreValid(t: Targets, dry: bool) {
    && (t.server == Text("") || IsTarget(Ulid, dry, t.server))
    && IsTargetMap(t.channels, Ulid, dry, "forum-index-")
    && AreParents(t.parents)
    && IsTargetMap(t.categories, CategoryId, dry, "forum-")
    && IsTargetMap(t.emoji, FileId, dry, "")
    && IsTargetMap(t.messages, Ulid, dry, "")
    && AreIndexMessages(t.indexMessages, dry)
    && AreReactions(t.reactions, dry)
    && AreRewrites(t.rewrites, dry)
  }

  predicate RecordsAreValid(roleMap: map<string, string>, pins: seq<(string, string)>, failed: seq<Failed>, dry: bool) {
    && (forall k :: k in roleMap ==> IsSnowflake(k) && Matches(Ulid, dry, roleMap[k]))
    && (forall p :: p in pins ==> Matches(Ulid, dry, p.0) && Matches(Ulid, dry, p.1))
    && (forall f :: f in failed ==> IsSnowflake(f.messageId) && Matches(Ulid, dry, f.channelId))
  }

  /** `check_state_ids`; only a dry run may hold placeholders. */
  predicate IdsAreValid(t: Targets, roleMap: map<string, string>, pins: seq<(string, string)>, failed: seq<Failed>) {
    var dry := t.dryRun == Bool(true);
    TargetsAreValid(t, dry) && RecordsAreValid(roleMap, pins, failed, dry)
  }

  // ----- putting a state together

  function TargetsOf(m: map<Name, Json>, messageMap: Option<Json>): Targets {
    Targets(
      Get(m, StoatServerId, Text("")),
      Get(m, ChannelMap, Object(map[])),
      Get(m, ThreadParentIds, Object(map[])),
      Get(m, CategoryMap, Object(map[])),
      Get(m, EmojiMap, Object(map[])),
      if messageMap.Some? then messageMap.value else Get(m, MessageMap, Object(map[])),
      Get(m, ForumIndexMessageIds, Object(map[])),
      Get(m, PendingReactions, List([])),
      Get(m, PendingEmojiRewrites, Object(map[])),
      Get(m, IsDryRun, Bool(false)))
  }

  function DecodeSavedRollback(v: Json): Option<Option<Rollback>> {
    if v.Null? then Some(None)
    else
      var r := DecodeRollback(v);
      if r.Some? then Some(r) else None
  }

  /** The decoded parts put together, with the checks on the whole. */
  function Assemble(
    core: Core, targets: Targets, pins: Option<seq<(string, string)>>, failed: Option<seq<Failed>>,
    rollback: Option<Option<Rollback>>, plain: map<PlainName, Json>): Option<State>
  {
    if pins.None? || failed.None? || rollback.None? || !DeliveriesAreValid(core)
       || !IdsAreValid(targets, core.roleMap, pins.value, failed.value)
    then None
    else Some(State(Seed(core), targets, pins.value, failed.value, rollback.value, plain))
  }

  /** `load_state`: the message map of its own file goes before an embedded one; `names` are the
      members that are taken over as they are. */
  function Load(v: Json, messageMap: Option<Json>, names: set<PlainName>): Option<State> {
    if !v.Object? || !HasCore(v.members)
       || !Get(v.members, PendingPins, List([])).List? || !Get(v.members, FailedMessages, List([])).List?
    then None
    else
      var m := v.members;
      Assemble(
        CoreOf(m),
        TargetsOf(m, messageMap),
        DecodePins(Get(m, PendingPins, List([])).items),
        DecodeFailures(Get(m, FailedMessages, List([])).items),
        DecodeSavedRollback(Get(m, RollbackProgress, Null)),
        map n: PlainName | n in names :: Get(m, Other(n), Null))
  }

  /** Both files of one save, loaded again with the members that were saved. */
  function Reload(files: Files, names: set<PlainName>): Option<State> {
    Load(files.state, Some(files.messageMap), names)
  }

  // ----- the round trip

  /** Looking the named members up, whatever default is given. */
  ghost predicate Says(m: map<Name, Json>, a: seq<Json>)
    requires |a| == 13
  {
    && {DeliveryNamespace, DeliveryServiceDigest, DeliveryBookkeeping, PendingDeliveryReplacements, RoleMap, CompletedAt,
        CompletedChannelIds, ReferencedAutumnIds, RolesFinalized, ForumIndexPresentUnknownId,
        PendingPins, FailedMessages, RollbackProgress} <= m.Keys
    && m[DeliveryNamespace] == a[0] && m[DeliveryServiceDigest] == a[1]
    && m[DeliveryBookkeeping] == a[2] && m[PendingDeliveryReplacements] == a[3]
    && m[RoleMap] == a[4] && m[CompletedAt] == a[5]
    && m[CompletedChannelIds] == a[6] && m[ReferencedAutumnIds] == a[7]
    && m[RolesFinalized] == a[8] && m[ForumIndexPresentUnknownId] == a[9]
    && m[PendingPins] == a[10] && m[FailedMessages] == a[11] && m[RollbackProgress] == a[12]
  }

  lemma NamedAloneSays(a: seq<Json>)
    requires |a| == 13
    ensures Says(Named(a), a)
    ensures forall n :: n in Named(a) ==> !n.Other?
  {
  }

  lemma MergeSays(before: map<Name, Json>, named: map<Name, Json>, a: seq<Json>)
    requires |a| == 13 && Says(named, a)
    ensures Says(before + named, a)
  {
    var m := before + named;
    assert named.Keys <= m.Keys;
    assert forall n :: n in named ==> m[n] == named[n];
  }

  lemma CoreRoundTrip(c: Core, o: Listing, m: map<Name, Json>, a: seq<Json>)
    requires |a| == 13 && Says(m, a)
    requires a[0] == Text(c.namespace) && a[1] == Text(c.serviceDigest) && a[5] == Text(c.completedAt)
    requires a[2] == EncodeTextMap(c.bookkeeping) && a[3] == EncodeTextMap(c.pending) && a[4] == EncodeTextMap(c.roleMap)
    requires a[6] == List(EncodeTexts(o.completedChannels)) && Orders(o.completedChannels, c.completedChannels)
    requires a[7] == List(EncodeTexts(o.referencedAutumn)) && Orders(o.referencedAutumn, c.referencedAutumn)
    requires a[8] == List(EncodeTexts(o.rolesFinalized)) && Orders(o.rolesFinalized, c.rolesFinalized)
    requires a[9] == List(EncodeTexts(o.presentUnknown)) && Orders(o.presentUnknown, c.presentUnknown)
    ensures HasCore(m) && CoreOf(m) == c
  {
    TextMapRoundTrip(c.bookkeeping);
    TextMapRoundTrip(c.pending);
    TextMapRoundTrip(c.roleMap);
    TextSetRoundTrip(o.completedChannels, c.completedChannels);
    TextSetRoundTrip(o.referencedAutumn, c.referencedAutumn);
    TextSetRoundTrip(o.rolesFinalized, c.rolesFinalized);
    TextSetRoundTrip(o.presentUnknown, c.presentUnknown);
  }

  lemma PlainRoundTrip(plain: map<PlainName, Json>, named: map<Name, Json>)
    requires forall n :: n in named ==> !n.Other?
    ensures (map n: PlainName | n in plain.Keys :: Get(PlainMembers(plain) + named, Other(n), Null)) == plain
  {
    var m := PlainMembers(plain) + named;
    forall n: PlainName | n in plain ensures Get(m, Other(n), Null) == plain[n] {
      assert Other(n) in PlainMembers(plain);
      assert Other(n) !in named;
    }
  }

  /** Looking the checked fields up. */
  ghost predicate SaysTargets(m: map<Name, Json>, t: Targets) {
    && {StoatServerId, ChannelMap, ThreadParentIds, CategoryMap, EmojiMap, ForumIndexMessageIds,
        PendingReactions, PendingEmojiRewrites, IsDryRun} <= m.Keys
    && m[StoatServerId] == t.server && m[ChannelMap] == t.channels && m[ThreadParentIds] == t.parents
    && m[CategoryMap] == t.categories && m[EmojiMap] == t.emoji && m[ForumIndexMessageIds] == t.indexMessages
    && m[PendingReactions] == t.reactions && m[PendingEmojiRewrites] == t.rewrites && m[IsDryRun] == t.dryRun
  }

  lemma NamedTargetsSay(t: Targets)
    ensures SaysTargets(NamedTargets(t), t)
  {
  }

  lemma MergeSaysTargets(before: map<Name, Json>, named: map<Name, Json>, after: map<Name, Json>, t: Targets)
    requires SaysTargets(named, t) && named.Keys !! after.Keys
    ensures SaysTargets(before + named + after, t)
  {
    var m := before + named + after;
    assert forall n :: n in named ==> n !in after && n in m && m[n] == named[n];
  }

  lemma TargetsFrom(m: map<Name, Json>, t: Targets)
    requires SaysTargets(m, t)
    ensures TargetsOf(m, Some(t.messages)) == t
  {
  }

  predicate IsTargetName(n: Name) {
    || n.StoatServerId? || n.ChannelMap? || n.ThreadParentIds? || n.CategoryMap? || n.EmojiMap?
    || n.ForumIndexMessageIds? || n.PendingReactions? || n.PendingEmojiRewrites? || n.IsDryRun?
  }

  lemma TargetNames(t: Targets)
    ensures forall n :: n in NamedTargets(t) ==> IsTargetName(n)
  {
  }

  lemma FieldNames(a: seq<Json>)
    requires |a| == 13
    ensures forall n :: n in Named(a) ==> !IsTargetName(n)
  {
  }

  lemma NamesAreSeparate(t: Targets, a: seq<Json>)
    requires |a| == 13
    ensures NamedTargets(t).Keys !! Named(a).Keys
  {
    var targets, named := NamedTargets(t).Keys, Named(a).Keys;
    TargetNames(t);
    FieldNames(a);
    assert forall n :: n in targets ==> IsTargetName(n);
    assert forall n :: n in named ==> !IsTargetName(n);
  }

  lemma MembersSayTargets(plain: map<Name, Json>, t: Targets, a: seq<Json>)
    requires |a| == 13
    ensures SaysTargets(plain + NamedTargets(t) + Named(a), t)
  {
    NamedTargetsSay(t);
    NamesAreSeparate(t, a);
    MergeSaysTargets(plain, NamedTargets(t), Named(a), t);
  }

  lemma TargetsRoundTrip(s: State, o: Listing)
    ensures TargetsOf(Members(s, o), Some(s.targets.messages)) == s.targets
  {
    MembersSayTargets(PlainMembers(s.plain), s.targets, Values(s, o));
    TargetsFrom(Members(s, o), s.targets);
  }

  lemma SavedRollbackRoundTrip(r: Option<Rollback>, ids: seq<string>)
    requires r.Some? ==> Orders(ids, r.value.ids)
    ensures DecodeSavedRollback(if r.Some? then EncodeRollback(r.value, ids) else Null) == Some(r)
  {
    if r.Some? {
      RollbackRoundTrip(r.value, ids);
    }
  }

  /** Loading, once the parts are known. */
  lemma LoadFrom(
    v: Json, messageMap: Option<Json>, names: set<PlainName>, core: Core, targets: Targets,
    pins: seq<Json>, failed: seq<Json>, rollback: Json, plain: map<PlainName, Json>)
    requires v.Object? && HasCore(v.members) && CoreOf(v.members) == core && TargetsOf(v.members, messageMap) == targets
    requires Get(v.members, PendingPins, List([])) == List(pins)
    requires Get(v.members, FailedMessages, List([])) == List(failed)
    requires Get(v.members, RollbackProgress, Null) == rollback
    requires (map n: PlainName | n in names :: Get(v.members, Other(n), Null)) == plain
    ensures Load(v, messageMap, names) ==
              Assemble(core, targets, DecodePins(pins), DecodeFailures(failed), DecodeSavedRollback(rollback), plain)
  {
  }

  lemma ValuesAreEncodings(s: State, o: Listing, m: map<Name, Json>)
    requires Says(m, Values(s, o)) && Lists(o, s)
    ensures HasCore(m) && CoreOf(m) == s.core
    ensures Get(m, PendingPins, List([])) == List(EncodePins(s.pins))
    ensures Get(m, FailedMessages, List([])) == List(EncodeFailures(s.failed))
    ensures Get(m, RollbackProgress, Null) ==
              if s.rollback.Some? then EncodeRollback(s.rollback.value, o.rolledBack) else Null
  {
    CoreRoundTrip(s.core, o, m, Values(s, o));
  }

  lemma NoNameIsOther(t: Targets, a: seq<Json>)
    requires |a| == 13
    ensures forall n :: n in NamedTargets(t) + Named(a) ==> !n.Other?
  {
    TargetNames(t);
    NamedAloneSays(a);
  }

  lemma MergeIsAssociative<K, V>(a: map<K, V>, b: map<K, V>, c: map<K, V>)
    ensures a + (b + c) == a + b + c
  {
  }

  lemma PlainPartRoundTrip(plain: map<PlainName, Json>, t: Targets, a: seq<Json>, m: map<Name, Json>)
    requires |a| == 13 && m == PlainMembers(plain) + NamedTargets(t) + Named(a)
    ensures (map n: PlainName | n in plain.Keys :: Get(m, Other(n), Null)) == plain
  {
    var targets, named := NamedTargets(t), Named(a);
    NoNameIsOther(t, a);
    MergeIsAssociative(PlainMembers(plain), targets, named);
    PlainRoundTrip(plain, targets + named);
  }

  lemma SavedLoadsAs(s: State, o: Listing)
    requires Lists(o, s)
    ensures Load(Object(Members(s, o)), Some(s.targets.messages), s.plain.Keys) ==
              Assemble(s.core, s.targets, Some(s.pins), DecodeFailures(EncodeFailures(s.failed)), Some(s.rollback), s.plain)
  {
    var a := Values(s, o);
    NamedAloneSays(a);
    MergeSays(PlainMembers(s.plain) + NamedTargets(s.targets), Named(a), a);
    ValuesAreEncodings(s, o, Members(s, o));
    TargetsRoundTrip(s, o);
    PlainPartRoundTrip(s.plain, s.targets, a, Members(s, o));
    PinsRoundTrip(s.pins);
    SavedRollbackRoundTrip(s.rollback, o.rolledBack);
    LoadFrom(Object(Members(s, o)), Some(s.targets.messages), s.plain.Keys, s.core, s.targets,
             EncodePins(s.pins), EncodeFailures(s.failed), Get(Members(s, o), RollbackProgress, Null), s.plain);
  }

  /** Main result: a saved state is refused exactly when a saved id or a failure's reference is not
      valid, and otherwise loads as itself, with the roles of an older completed run seeded. The
      order in which sets were written does not matter. */
  lemma LoadAfterSave(s: State, o: Listing)
    requires DeliveriesAreValid(s.core) && Lists(o, s)
    ensures Save(s, o).Some?
    ensures Reload(Save(s, o).value, s.plain.Keys) ==
              if RefsAgree(s.failed) && IdsAreValid(s.targets, s.core.roleMap, s.pins, s.failed)
              then Some(s.(core := if s.core.completedAt != "" && s.core.roleMap != map[] && s.core.rolesFinalized == {}
                                   then s.core.(rolesFinalized := s.core.roleMap.Keys) else s.core))
              else None
  {
    SavedLoadsAs(s, o);
    FailuresRoundTrip(s.failed);
  }

  /** Saving then loading is the identity exactly for valid ids and references and where the
      finalized roles are not seeded. */
  lemma RoundTripExactly(s: State, o: Listing)
    requires DeliveriesAreValid(s.core) && Lists(o, s)
    ensures Reload(Save(s, o).value, s.plain.Keys) == Some(s) <==>
              RefsAgree(s.failed) && IdsAreValid(s.targets, s.core.roleMap, s.pins, s.failed)
              && (s.core.completedAt == "" || s.core.roleMap == map[] || s.core.rolesFinalized != {})
  {
    LoadAfterSave(s, o);
    assert s.core.roleMap.Keys == {} ==> s.core.roleMap == map[];
  }

  /** A folder without a file for the message map loads with the one embedded in the state. */
  lemma EmbeddedMessageMap(v: Json, names: set<PlainName>)
    requires v.Object?
    ensures Load(v, None, names) ==
              Load(v, Some(if MessageMap in v.members then v.members[MessageMap] else Object(map[])), names)
  {
  }

  /** 26 digits and letters without I, L, O and U. */
  ghost predicate IsUlid(s: string) {
    |s| == 26 && forall i :: 0 <= i < 26 ==>
      || '0' <= s[i] <= '9'
      || (('A' <= s[i] <= 'Z' || 'a' <= s[i] <= 'z') && s[i] !in {'I', 'L', 'O', 'U', 'i', 'l', 'o', 'u'})
  }

  lemma UpperCaseUlid(c: char)
    ensures c in "ABCDEFGHJKMNPQRSTVWXYZ" <==> 'A' <= c <= 'Z' && c !in {'I', 'L', 'O', 'U'}
  {
    var letters := "ABCDEFGHJKMNPQRSTVWXYZ";
    var i := c as int - 'A' as int;
    if 0 <= i < 26 && c !in {'I', 'L', 'O', 'U'} {
      assert letters[if i < 8 then i else if i < 11 then i - 1 else if i < 14 then i - 2 else if i < 20 then i - 3 else i - 4] == c;
    }
  }

  lemma LowerCaseUlid(c: char)
    ensures c in "abcdefghjkmnpqrstvwxyz" <==> 'a' <= c <= 'z' && c !in {'i', 'l', 'o', 'u'}
  {
    var letters := "abcdefghjkmnpqrstvwxyz";
    var i := c as int - 'a' as int;
    if 0 <= i < 26 && c !in {'i', 'l', 'o', 'u'} {
      assert letters[if i < 8 then i else if i < 11 then i - 1 else if i < 14 then i - 2 else if i < 20 then i - 3 else i - 4] == c;
    }
  }

  lemma UlidExactly(s: string)
    ensures Matches(Ulid, false, s) <==> IsUlid(s)
  {
    forall i | 0 <= i < |s|
      ensures s[i] in "ABCDEFGHJKMNPQRSTVWXYZ" <==> 'A' <= s[i] <= 'Z' && s[i] !in {'I', 'L', 'O', 'U'}
      ensures s[i] in "abcdefghjkmnpqrstvwxyz" <==> 'a' <= s[i] <= 'z' && s[i] !in {'i', 'l', 'o', 'u'}
    {
      UpperCaseUlid(s[i]);
      LowerCaseUlid(s[i]);
    }
  }

  ghost predicate IsUlidText(v: Json) {
    v.Text? && IsUlid(v.s)
  }

  /** A token of letters, digits, underscores and hyphens. */
  ghost predicate IsTokenText(v: Json, longest: nat) {
    && v.Text? && 1 <= |v.s| <= longest
    && forall i :: 0 <= i < |v.s| ==>
         var c := v.s[i];
         '0' <= c <= '9' || 'A' <= c <= 'Z' || 'a' <= c <= 'z' || c == '_' || c == '-'
  }

  /** A Discord id. */
  ghost predicate IsDiscordId(s: string) {
    1 <= |s| <= 20 && forall i :: 0 <= i < |s| ==> '0' <= s[i] <= '9'
  }

  lemma UlidTextExactly(v: Json)
    ensures IsTarget(Ulid, false, v) <==> IsUlidText(v)
  {
    if v.Text? {
      UlidExactly(v.s);
    }
  }

  lemma TokenTextExactly(v: Json)
    ensures IsTarget(FileId, false, v) <==> IsTokenText(v, 128)
    ensures IsTarget(CategoryId, false, v) <==> IsTokenText(v, 32)
  {
  }

  /** An object whose names are Discord ids, or longer than the prefix where there is one. */
  ghost predicate HasSourceKeys(v: Json, prefix: string) {
    v.Object? && forall n :: n in v.members ==> n.Other? && (IsDiscordId(n.text) || (prefix != "" && prefix < n.text))
  }

  /** The checked maps of a state that is not a dry run. */
  ghost predicate MapsAreReal(t: Targets) {
    && (t.server == Text("") || IsUlidText(t.server))
    && HasSourceKeys(t.channels, "forum-index-") && (forall n :: n in t.channels.members ==> IsUlidText(t.channels.members[n]))
    && HasSourceKeys(t.messages, "") && (forall n :: n in t.messages.members ==> IsUlidText(t.messages.members[n]))
    && HasSourceKeys(t.parents, "")
    && (forall n :: n in t.parents.members ==> t.parents.members[n].Text? && IsDiscordId(t.parents.members[n].s))
    && HasSourceKeys(t.categories, "forum-") && (forall n :: n in t.categories.members ==> IsTokenText(t.categories.members[n], 32))
    && HasSourceKeys(t.emoji, "") && (forall n :: n in t.emoji.members ==> IsTokenText(t.emoji.members[n], 128))
    && t.indexMessages.Object? && forall n :: n in t.indexMessages.members ==> IsUlidText(t.indexMessages.members[n])
  }

  /** Its pending reactions and rewrites. */
  ghost predicate PendingIsReal(t: Targets) {
    && (t.reactions == Object(map[]) || t.reactions == Text("")
        || (t.reactions.List? && forall i :: 0 <= i < |t.reactions.items| ==>
              var r := t.reactions.items[i];
              && r.Object? && {ChannelId, MessageId, Emoji} <= r.members.Keys
              && IsUlidText(r.members[ChannelId]) && IsUlidText(r.members[MessageId])
              && r.members[Emoji].Text? && r.members[Emoji].s != ""))
    && HasSourceKeys(t.rewrites, "")
    && forall n :: n in t.rewrites.members ==>
         var w := t.rewrites.members[n];
         w.Object? && {Old, New} <= w.members.Keys && IsTokenText(w.members[Old], 128) && IsTokenText(w.members[New], 128)
  }

  lemma SourceKeysExactly(v: Json, prefix: string)
    ensures HasSourceKeys(v, prefix) <==> v.Object? && forall n :: n in v.members ==> IsSourceKey(n, prefix)
  {
    assert forall s: string :: IsSnowflake(s) <==> IsDiscordId(s);
  }

  lemma MapsAreRealExactly(t: Targets)
    ensures MapsAreReal(t) <==>
              && (t.server == Text("") || IsTarget(Ulid, false, t.server))
              && IsTargetMap(t.channels, Ulid, false, "forum-index-") && AreParents(t.parents)
              && IsTargetMap(t.categories, CategoryId, false, "forum-") && IsTargetMap(t.emoji, FileId, false, "")
              && IsTargetMap(t.messages, Ulid, false, "") && AreIndexMessages(t.indexMessages, false)
  {
    forall v: Json
      ensures IsTarget(Ulid, false, v) <==> IsUlidText(v)
      ensures IsTarget(FileId, false, v) <==> IsTokenText(v, 128)
      ensures IsTarget(CategoryId, false, v) <==> IsTokenText(v, 32)
    {
      UlidTextExactly(v);
      TokenTextExactly(v);
    }
    assert forall s: string :: IsSnowflake(s) <==> IsDiscordId(s);
    forall v: Json, prefix: string
      ensures HasSourceKeys(v, prefix) <==> v.Object? && forall n :: n in v.members ==> IsSourceKey(n, prefix)
    {
      SourceKeysExactly(v, prefix);
    }
  }

  lemma PendingIsRealExactly(t: Targets)
    ensures PendingIsReal(t) <==> AreReactions(t.reactions, false) && AreRewrites(t.rewrites, false)
  {
    forall v: Json
      ensures IsTarget(Ulid, false, v) <==> IsUlidText(v)
      ensures IsTarget(FileId, false, v) <==> IsTokenText(v, 128)
    {
      UlidTextExactly(v);
      TokenTextExactly(v);
    }
    SourceKeysExactly(t.rewrites, "");
  }

  /** Its roles, pins and failures. */
  ghost predicate RecordsAreReal(roleMap: map<string, string>, pins: seq<(string, string)>, failed: seq<Failed>) {
    && (forall k :: k in roleMap ==> IsDiscordId(k) && IsUlid(roleMap[k]))
    && (forall p :: p in pins ==> IsUlid(p.0) && IsUlid(p.1))
    && (forall f :: f in failed ==> IsDiscordId(f.messageId) && IsUlid(f.channelId))
  }

  lemma RecordsAreRealExactly(roleMap: map<string, string>, pins: seq<(string, string)>, failed: seq<Failed>)
    ensures RecordsAreValid(roleMap, pins, failed, false) <==> RecordsAreReal(roleMap, pins, failed)
  {
    forall s: string ensures Matches(Ulid, false, s) <==> IsUlid(s) {
      UlidExactly(s);
    }
    assert forall s: string :: IsSnowflake(s) <==> IsDiscordId(s);
  }

  /** Outside a dry run a saved state loads exactly when every Stoat id in it is a ULID, every file and
      category id a token, every Discord id a number, and every failure's reference is its own. */
  lemma LoadsExactlyRealIds(s: State, o: Listing)
    requires DeliveriesAreValid(s.core) && Lists(o, s) && s.targets.dryRun != Bool(true)
    ensures Reload(Save(s, o).value, s.plain.Keys).Some? <==>
              && RefsAgree(s.failed)
              && MapsAreReal(s.targets) && PendingIsReal(s.targets)
              && RecordsAreReal(s.core.roleMap, s.pins, s.failed)
  {
    LoadAfterSave(s, o);
    MapsAreRealExactly(s.targets);
    PendingIsRealExactly(s.targets);
    RecordsAreRealExactly(s.core.roleMap, s.pins, s.failed);
  }

  /** Lower-case hexadecimal of this length. */
  ghost predicate IsHexOf(s: string, n: nat) {
    |s| == n && forall i :: 0 <= i < n ==> '0' <= s[i] <= '9' || 'a' <= s[i] <= 'f'
  }

  /** Delivery records that a state file may hold: with a namespace and a service digest or with nothing
      recorded, markers and pending replacements under delivery ids. */
  ghost predicate DeliveriesAreReal(c: Core) {
    && (|| (IsHexOf(c.namespace, 32) && IsHexOf(c.serviceDigest, 64))
        || (c.namespace == "" && c.serviceDigest == "" && c.bookkeeping == map[] && c.pending == map[]))
    && (forall k :: k in c.bookkeeping ==> IsHexOf(k, 64) && IsUlid(c.bookkeeping[k]))
    && (forall k :: k in c.pending ==> IsHexOf(k, 64) && IsHexOf(c.pending[k], 32))
  }

  lemma DeliveriesExactly(c: Core)
    ensures DeliveriesAreValid(c) <==> DeliveriesAreReal(c)
  {
    forall s: string ensures Delivery.IsStoatId(s) <==> IsUlid(s) {
      UlidExactly(s);
    }
    assert forall s: string, n: nat :: IsHex(s, n) <==> IsHexOf(s, n);
  }

  /** A state is saved exactly when its delivery records are of this form, and no other is ever loaded. */
  lemma SavedAndLoadedDeliveries(s: State, o: Listing, v: Json, messageMap: Option<Json>, names: set<PlainName>)
    ensures Save(s, o).Some? <==> DeliveriesAreReal(s.core)
    ensures Load(v, messageMap, names).Some? ==> DeliveriesAreReal(Load(v, messageMap, names).value.core)
  {
    DeliveriesExactly(s.core);
    if Load(v, messageMap, names).Some? {
      DeliveriesExactly(Load(v, messageMap, names).value.core);
    }
  }

  /** A failure whose reference is about another message saves and can never be loaded again. */
  lemma MismatchedFailureBlocksLoading(s: State, o: Listing, f: Failed)
    requires DeliveriesAreValid(s.core) && Lists(o, s)
    requires f in s.failed && f.ref.Some? && f.ref.value.sourceMessage != f.messageId
    ensures Save(s, o).Some? && Reload(Save(s, o).value, s.plain.Keys).None?
  {
    LoadAfterSave(s, o);
  }

  /** Such a state, with nothing else in it. */
  lemma MismatchedFailureExists()
    ensures var f := Failed("1", "01ARZ3NDEKTSV4RRFFQ69G5FAV", "", 0, "", Some(Reference("7", "2", "01ARZ3NDEKTSV4RRFFQ69G5FAV", "ordinary", "base")));
            var none := Object(map[]);
            var s := State(Core("", "", map[], map[], map[], "", {}, {}, {}, {}),
                           Targets(Text(""), none, none, none, none, none, none, List([]), none, Bool(false)),
                           [], [f], None, map[]);
            var o := Listing([], [], [], [], []);
            Save(s, o).Some? && Reload(Save(s, o).value, {}).None?
  {
    var f := Failed("1", "01ARZ3NDEKTSV4RRFFQ69G5FAV", "", 0, "", Some(Reference("7", "2", "01ARZ3NDEKTSV4RRFFQ69G5FAV", "ordinary", "base")));
    var none := Object(map[]);
    var s := State(Core("", "", map[], map[], map[], "", {}, {}, {}, {}),
                   Targets(Text(""), none, none, none, none, none, none, List([]), none, Bool(false)),
                   [], [f], None, map[]);
    var o := Listing([], [], [], [], []);
    assert ToSet<string>([]) == {};
    assert Lists(o, s);
    assert s.plain.Keys == {};
    MismatchedFailureBlocksLoading(s, o, f);
  }
}
