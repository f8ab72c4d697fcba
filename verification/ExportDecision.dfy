/**
 `select_export_decision`: when an incremental export may be bounded below, and by which id.
 */
module ExportDecision {
  import opened Common

  // ----- decimal ids

  predicate IsDecimal(s: string) {
    s != "" && forall c :: c in s ==> '0' <= c <= '9'
  }

  function Digit(c: char): int {
    c as int - '0' as int
  }

  /** `int(s)` for decimal digits. */
  function ParseInt(s: string): int {
    if s == "" then 0 else ParseInt(s[..|s| - 1]) * 10 + Digit(s[|s| - 1])
  }

  /** `str(n)` */
  function Render(n: nat): string {
    if n < 10 then [(n + '0' as int) as char] else Render(n / 10) + [(n % 10 + '0' as int) as char]
  }

  predicate IsSnowflake(s: string) {
    IsDecimal(s) && ParseInt(s) > 0
  }

  lemma {:induction false} RenderParses(n: nat)
    ensures IsDecimal(Render(n)) && ParseInt(Render(n)) == n
  {
    if n >= 10 {
      RenderParses(n / 10);
      var s := Render(n);
      assert s[..|s| - 1] == Render(n / 10);
    } else {
      assert Render(n)[..0] == "";
    }
  }

  // ----- the evidence

  /** A saved failure, with its source channel when a delivery reference witnesses it. */
  datatype SavedFailure = SavedFailure(source: Option<string>, messageId: string)

  datatype Inventory = Inventory(ids: seq<string>, complete: bool)

  datatype Decision = Full | Bounded(expected: seq<string>, after: string)

  type Retries = map<string, seq<string>>

  function FailedFor(fs: seq<SavedFailure>, source: string): (r: seq<string>)
    ensures forall m :: m in r <==> SavedFailure(Some(source), m) in fs
  {
    if fs == [] then []
    else
      var last := fs[|fs| - 1];
      FailedFor(fs[..|fs| - 1], source) + (if last.source == Some(source) then [last.messageId] else [])
  }

  /** The failures by source, or nothing when one of them has no source. */
  ghost predicate Grouped(fs: seq<SavedFailure>, r: Option<Retries>) {
    && (r.None? <==> exists f :: f in fs && f.source.None?)
    && (r.Some? ==>
          && (forall s :: s in r.value <==> FailedFor(fs, s) != [])
          && (forall s :: s in r.value ==> r.value[s] == FailedFor(fs, s)))
  }

  /** `_failed_ids` */
  method FailedIds(fs: seq<SavedFailure>) returns (r: Option<Retries>)
    ensures Grouped(fs, r)
  {
    var grouped: Retries := map[];
    for i := 0 to |fs|
      invariant forall f :: f in fs[..i] ==> f.source.Some?
      invariant forall s :: s in grouped <==> FailedFor(fs[..i], s) != []
      invariant forall s :: s in grouped ==> grouped[s] == FailedFor(fs[..i], s)
    {
      assert fs[i] in fs && fs[..i + 1][..i] == fs[..i];
      if fs[i].source.None? {
        return None;
      }
      var s := fs[i].source.value;
      grouped := grouped[s := (if s in grouped then grouped[s] else []) + [fs[i].messageId]];
    }
    assert fs[..|fs|] == fs;
    r := Some(grouped);
  }

  // ----- the decision

  predicate InventoryIsValid(ids: seq<string>) {
    |ids| == |ToSet(ids)| && forall id :: id in ids ==> IsSnowflake(id)
  }

  predicate MarkersAreValid(ids: seq<string>, highWater: map<string, string>) {
    forall id :: id in ids ==> id in highWater && IsSnowflake(highWater[id])
  }

  /** All failed message ids. */
  function Protected(failed: Retries): (r: set<string>)
    ensures forall m :: m in r <==> exists s :: s in failed && m in failed[s]
  {
    set s, m | s in failed && m in failed[s] :: m
  }

  predicate RetriesAreValid(ids: seq<string>, failed: Retries) {
    && (forall s :: s in failed ==> s in ids)
    && (forall m :: m in Protected(failed) ==> IsSnowflake(m))
  }

  /** The bounds the evidence allows: each source's mark, and just below each failure. */
  function MarkerBounds(ids: seq<string>, highWater: map<string, string>): (r: set<int>)
    requires MarkersAreValid(ids, highWater)
    ensures forall b :: b in r ==> b >= 0
  {
    set id | id in ids :: ParseInt(highWater[id])
  }

  function RetryBounds(ids: seq<string>, failed: Retries): (r: set<int>)
    requires RetriesAreValid(ids, failed)
    ensures forall b :: b in r ==> b >= 0
  {
    set m | m in Protected(failed) :: ParseInt(m) - 1
  }

  /** `min` */
  ghost function Least(bounds: set<int>): (b: int)
    requires exists b :: b in bounds
    ensures IsLeast(b, bounds)
  {
    var any :| any in bounds;
    HasLeast(bounds, any);
    var b :| IsLeast(b, bounds);
    b
  }

  /** Whether the evidence proves coverage. */
  predicate Proven(
    inventory: Inventory, highWater: map<string, string>, failed: Option<Retries>, previousComplete: bool)
  {
    && inventory.ids != [] && inventory.complete && previousComplete && failed.Some?
    && InventoryIsValid(inventory.ids)
    && MarkersAreValid(inventory.ids, highWater)
    && RetriesAreValid(inventory.ids, failed.value)
  }

  function Bounds(ids: seq<string>, highWater: map<string, string>, failed: Retries): (r: set<int>)
    requires ids != [] && MarkersAreValid(ids, highWater) && RetriesAreValid(ids, failed)
    ensures (exists b :: b in r) && forall b :: b in r ==> b >= 0
  {
    var r := MarkerBounds(ids, highWater) + RetryBounds(ids, failed);
    assert ids[0] in ids && ParseInt(highWater[ids[0]]) in r;
    r
  }

  /** `select_export_decision` */
  ghost function SelectExportDecision(
    inventory: Inventory, highWater: map<string, string>, failed: Option<Retries>, previousComplete: bool): Decision
  {
    if !Proven(inventory, highWater, failed, previousComplete) then Full
    else Bounded(inventory.ids, Render(Least(Bounds(inventory.ids, highWater, failed.value))))
  }

  // ----- what a bound promises

  /** Whether a message or failure is still needed: above its source's mark, or a saved failure. */
  predicate StillNeeded(
    ids: seq<string>, highWater: map<string, string>, failed: Retries, source: string, m: int)
    requires MarkersAreValid(ids, highWater)
  {
    || (source in ids && m > ParseInt(highWater[source]))
    || (source in failed && exists f :: f in failed[source] && ParseInt(f) == m)
  }

  /** An export after `bound` fetches everything still needed. */
  ghost predicate Covers(ids: seq<string>, highWater: map<string, string>, failed: Retries, bound: int)
    requires MarkersAreValid(ids, highWater)
  {
    forall source, m :: StillNeeded(ids, highWater, failed, source, m) ==> m > bound
  }

  /** Covering is being below every bound of the evidence. */
  lemma CoversExactly(ids: seq<string>, highWater: map<string, string>, failed: Retries, bound: int)
    requires ids != [] && MarkersAreValid(ids, highWater) && RetriesAreValid(ids, failed)
    ensures Covers(ids, highWater, failed, bound) <==> forall b :: b in Bounds(ids, highWater, failed) ==> bound <= b
  {
    var bounds := Bounds(ids, highWater, failed);
    if Covers(ids, highWater, failed, bound) {
      forall b | b in bounds ensures bound <= b {
        if id :| id in ids && b == ParseInt(highWater[id]) {
          assert StillNeeded(ids, highWater, failed, id, b + 1);
        } else {
          var m :| m in Protected(failed) && b == ParseInt(m) - 1;
          var s :| s in failed && m in failed[s];
          assert StillNeeded(ids, highWater, failed, s, b + 1);
        }
      }
    }
    if forall b :: b in bounds ==> bound <= b {
      forall source, m | StillNeeded(ids, highWater, failed, source, m) ensures m > bound {
        if source in ids && m > ParseInt(highWater[source]) {
          assert ParseInt(highWater[source]) in bounds;
        } else {
          var f :| f in failed[source] && ParseInt(f) == m;
          assert ParseInt(f) - 1 in bounds;
        }
      }
    }
  }

  /** A positive number in decimal digits. */
  ghost predicate PositiveDigits(s: string) {
    |s| > 0 && (forall i :: 0 <= i < |s| ==> '0' <= s[i] <= '9') && exists i :: 0 <= i < |s| && s[i] != '0'
  }

  lemma {:induction false} ParseIntSign(s: string)
    requires forall i :: 0 <= i < |s| ==> '0' <= s[i] <= '9'
    ensures ParseInt(s) >= 0
    ensures ParseInt(s) > 0 <==> exists i :: 0 <= i < |s| && s[i] != '0'
    decreases |s|
  {
    if s != "" {
      var n := |s| - 1;
      var front := s[..n];
      ParseIntSign(front);
      if i :| 0 <= i < |s| && s[i] != '0' {
        assert i < n ==> front[i] != '0';
      }
      if i :| 0 <= i < n && front[i] != '0' {
        assert s[i] != '0';
      }
    }
  }

  lemma SnowflakeExactly(s: string)
    ensures IsSnowflake(s) <==> PositiveDigits(s)
  {
    if IsDecimal(s) {
      forall i | 0 <= i < |s| ensures '0' <= s[i] <= '9' {
        assert s[i] in s;
      }
      ParseIntSign(s);
    }
  }

  /** Exactly when an export is bounded: the inventory and the previous export are complete, it lists some
      sources and none twice, every source and its mark are positive numbers, every failure has a source
      in the inventory and a positive number. */
  lemma BoundedExactly(
    inventory: Inventory, highWater: map<string, string>, failed: Option<Retries>, previousComplete: bool)
    ensures SelectExportDecision(inventory, highWater, failed, previousComplete).Bounded? <==>
              && inventory.complete && previousComplete && |inventory.ids| > 0 && failed.Some?
              && NoDuplicates(inventory.ids)
              && (forall id :: id in inventory.ids ==> PositiveDigits(id) && id in highWater && PositiveDigits(highWater[id]))
              && (forall s :: s in failed.value ==> s in inventory.ids && forall m :: m in failed.value[s] ==> PositiveDigits(m))
  {
    if NoDuplicates(inventory.ids) {
      NoDuplicatesLength(inventory.ids);
    } else if |inventory.ids| == |ToSet(inventory.ids)| {
      FullSetNoDuplicates(inventory.ids);
    }
    forall s: string ensures IsSnowflake(s) <==> PositiveDigits(s) {
      SnowflakeExactly(s);
    }
  }

  /** Main result: a bounded export covers everything still needed of every current source, no larger
      bound does, and its text is that number. */
  lemma BoundedCovers(
    inventory: Inventory, highWater: map<string, string>, failed: Option<Retries>, previousComplete: bool)
    requires SelectExportDecision(inventory, highWater, failed, previousComplete).Bounded?
    ensures Proven(inventory, highWater, failed, previousComplete)
    ensures var d := SelectExportDecision(inventory, highWater, failed, previousComplete);
            && d.expected == inventory.ids
            && IsDecimal(d.after)
            && Covers(inventory.ids, highWater, failed.value, ParseInt(d.after))
            && forall b :: Covers(inventory.ids, highWater, failed.value, b) ==> b <= ParseInt(d.after)
  {
    var ids := inventory.ids;
    var least := Least(Bounds(ids, highWater, failed.value));
    RenderParses(least);
    CoversExactly(ids, highWater, failed.value, least);
    forall b | Covers(ids, highWater, failed.value, b) ensures b <= least {
      CoversExactly(ids, highWater, failed.value, b);
    }
  }

  /** From the saved failures themselves: a bounded export fetches each of them again, and one
      failure without a source forces a full one. */
  lemma SavedFailuresAreCovered(
    fs: seq<SavedFailure>, inventory: Inventory, highWater: map<string, string>, previousComplete: bool,
    failed: Option<Retries>)
    requires Grouped(fs, failed)
    ensures var d := SelectExportDecision(inventory, highWater, failed, previousComplete);
            && ((exists f :: f in fs && f.source.None?) ==> d.Full?)
            && (d.Bounded? ==> forall f :: f in fs ==> f.source.value in inventory.ids && ParseInt(f.messageId) > ParseInt(d.after))
  {
    var d := SelectExportDecision(inventory, highWater, failed, previousComplete);
    if d.Bounded? {
      BoundedCovers(inventory, highWater, failed, previousComplete);
      forall f | f in fs ensures f.source.value in inventory.ids && ParseInt(f.messageId) > ParseInt(d.after) {
        var s := f.source.value;
        assert f == SavedFailure(Some(s), f.messageId);
        assert f.messageId in FailedFor(fs, s);
        assert StillNeeded(inventory.ids, highWater, failed.value, s, ParseInt(f.messageId));
      }
    }
  }
}
