/**
 The saved form of delivery references and receipts: what `dataclasses.asdict` writes, and what the
 decoders of `state.py` accept.
 */
module ReceiptCodec {
  import opened Common
  import opened SavedJson
  import Delivery

  // ----- the records

  datatype Reference = Reference(
    sourceChannel: string, sourceMessage: string, destination: string, family: string, generation: string)

  datatype Part = Part(
    index: int,
    key: string,
    attempt: int,
    status: string,
    messageId: string,
    autumnIds: seq<string>,
    association: Option<string>
  )

  datatype Receipt = Receipt(
    version: int, namespace: string, service: string, ref: Reference, render: string, parts: seq<Part>)

  // ----- patterns

  predicate HexDigit(c: char) {
    '0' <= c <= '9' || 'a' <= c <= 'f'
  }

  predicate IsHex(s: string, n: nat) {
    |s| == n && forall i :: 0 <= i < |s| ==> HexDigit(s[i])
  }

  predicate TokenCharacter(c: char) {
    'A' <= c <= 'Z' || 'a' <= c <= 'z' || '0' <= c <= '9' || c == '_' || c == '-'
  }

  predicate IsToken(s: string) {
    1 <= |s| <= 128 && forall i :: 0 <= i < |s| ==> TokenCharacter(s[i])
  }

  const KEY_PREFIX: string := "ferry-v2-"

  predicate IsKey(s: string) {
    KEY_PREFIX <= s && IsHex(s[|KEY_PREFIX|..], 40)
  }

  const FAMILIES: set<string> := {"ordinary", "merged", "header", "separator", "forum_index"}
  const STATUSES: set<string> := {"prepared", "uncertain", "acknowledged", "confirmed_rejected"}
  const ASSOCIATIONS: set<string> := {"matched", "mismatch", "unavailable", "observed_only"}

  // ----- what is well formed

  predicate WellFormedRef(r: Reference) {
    && IsToken(r.sourceChannel) && IsToken(r.sourceMessage)
    && Delivery.IsStoatId(r.destination)
    && r.family in FAMILIES
    && (r.generation == "base" || IsHex(r.generation, 32))
  }

  predicate WellFormedPart(p: Part, index: nat) {
    && p.index == index && p.attempt >= 0
    && IsKey(p.key)
    && p.status in STATUSES
    && (if p.status == "acknowledged" then Delivery.IsStoatId(p.messageId) else p.messageId == "")
    && (forall i :: 0 <= i < |p.autumnIds| ==> IsToken(p.autumnIds[i]))
    && (p.association.Some? ==> p.association.value in ASSOCIATIONS)
  }

  predicate WellFormedParts(ps: seq<Part>) {
    && (forall i :: 0 <= i < |ps| ==> WellFormedPart(ps[i], i))
    && (forall i, j :: 0 <= i < j < |ps| ==> ps[i].key != ps[j].key)
  }

  predicate WellFormedReceipt(r: Receipt) {
    && r.version == 1 && IsHex(r.namespace, 32) && IsHex(r.service, 64) && IsHex(r.render, 64)
    && WellFormedRef(r.ref)
    && r.parts != [] && WellFormedParts(r.parts)
  }

  // ----- encoding

  function EncodeRef(r: Reference): Json {
    Object(map[
      SourceChannelId := Text(r.sourceChannel), SourceMessageId := Text(r.sourceMessage),
      DestinationChannelId := Text(r.destination), Family := Text(r.family), Generation := Text(r.generation)])
  }

  function EncodePart(p: Part): Json {
    Object(map[
      Index := Int(p.index), Key := Text(p.key), Attempt := Int(p.attempt), Status := Text(p.status),
      MessageId := Text(p.messageId), AutumnIds := List(EncodeTexts(p.autumnIds)),
      AssociationStatus := if p.association.Some? then Text(p.association.value) else Null])
  }

  function EncodeParts(ps: seq<Part>): (r: seq<Json>)
    ensures |r| == |ps| && forall i :: 0 <= i < |ps| ==> r[i] == EncodePart(ps[i])
  {
    seq(|ps|, i requires 0 <= i < |ps| => EncodePart(ps[i]))
  }

  function EncodeReceipt(r: Receipt): Json {
    Object(map[
      Version := Int(r.version), Namespace := Text(r.namespace), ServiceDigest := Text(r.service),
      Ref := EncodeRef(r.ref), RenderDigest := Text(r.render), Parts := List(EncodeParts(r.parts))])
  }

  // ----- decoding

  /** `_delivery_record` */
  predicate HasExactly(v: Json, names: set<Name>) {
    v.Object? && v.members.Keys == names
  }

  /** `_decode_delivery_ref` */
  function DecodeRef(v: Json): Option<Reference> {
    if !HasExactly(v, {SourceChannelId, SourceMessageId, DestinationChannelId, Family, Generation}) then None
    else
      var m := v.members;
      if m[SourceChannelId].Text? && IsToken(m[SourceChannelId].s)
         && m[SourceMessageId].Text? && IsToken(m[SourceMessageId].s)
         && m[DestinationChannelId].Text? && Delivery.IsStoatId(m[DestinationChannelId].s)
         && m[Family].Text? && m[Family].s in FAMILIES
         && m[Generation].Text? && (m[Generation].s == "base" || IsHex(m[Generation].s, 32))
      then Some(Reference(m[SourceChannelId].s, m[SourceMessageId].s, m[DestinationChannelId].s, m[Family].s, m[Generation].s))
      else None
  }

  predicate AreTokens(vs: seq<Json>) {
    forall i :: 0 <= i < |vs| ==> vs[i].Text? && IsToken(vs[i].s)
  }

  /** An absent association is the same as a null one. */
  function DecodeAssociation(m: map<Name, Json>): Option<Option<string>> {
    if AssociationStatus !in m || m[AssociationStatus].Null? then Some(None)
    else if m[AssociationStatus].Text? && m[AssociationStatus].s in ASSOCIATIONS then Some(Some(m[AssociationStatus].s))
    else None
  }

  predicate Acknowledgement(status: string, v: Json) {
    if status == "acknowledged" then v.Text? && Delivery.IsStoatId(v.s) else v == Text("")
  }

  /** One part, apart from the test for a repeated key. */
  function DecodePart(v: Json, index: nat): Option<Part> {
    var required := {Index, Key, Attempt, Status, MessageId, AutumnIds};
    if !v.Object? || !(required <= v.members.Keys <= required + {AssociationStatus}) then None
    else
      var m := v.members;
      var association := DecodeAssociation(m);
      if association.Some? && m[Index] == Int(index)
         && m[Attempt].Int? && m[Attempt].i >= 0
         && m[Key].Text? && IsKey(m[Key].s)
         && m[Status].Text? && m[Status].s in STATUSES
         && Acknowledgement(m[Status].s, m[MessageId])
         && m[AutumnIds].List? && AreTokens(m[AutumnIds].items)
      then Some(Part(index, m[Key].s, m[Attempt].i, m[Status].s, TextOf(m[MessageId]), Texts(m[AutumnIds].items), association.value))
      else None
  }

  /** The parts in order; a key that occurred before is refused. */
  function DecodeParts(vs: seq<Json>): Option<seq<Part>> {
    if vs == [] then Some([])
    else
      var n := |vs| - 1;
      var before, part := DecodeParts(vs[..n]), DecodePart(vs[n], n);
      if before.Some? && part.Some? && (forall p :: p in before.value ==> p.key != part.value.key)
      then Some(before.value + [part.value])
      else None
  }

  /** `_decode_delivery_receipt` */
  function DecodeReceipt(v: Json): Option<Receipt> {
    if !HasExactly(v, {Version, Namespace, ServiceDigest, Ref, RenderDigest, Parts}) then None
    else
      var m := v.members;
      if m[Version] == Int(1)
         && m[Namespace].Text? && IsHex(m[Namespace].s, 32)
         && m[ServiceDigest].Text? && IsHex(m[ServiceDigest].s, 64)
         && m[RenderDigest].Text? && IsHex(m[RenderDigest].s, 64)
         && DecodeRef(m[Ref]).Some?
         && m[Parts].List? && m[Parts].items != [] && DecodeParts(m[Parts].items).Some?
      then Some(Receipt(1, m[Namespace].s, m[ServiceDigest].s, DecodeRef(m[Ref]).value, m[RenderDigest].s, DecodeParts(m[Parts].items).value))
      else None
  }

  // ----- round trips

  lemma RefRoundTrip(r: Reference)
    ensures DecodeRef(EncodeRef(r)) == if WellFormedRef(r) then Some(r) else None
  {
    var m := EncodeRef(r).members;
    assert m.Keys == {SourceChannelId, SourceMessageId, DestinationChannelId, Family, Generation};
  }

  lemma PartRoundTrip(p: Part, index: nat)
    ensures DecodePart(EncodePart(p), index) == if WellFormedPart(p, index) then Some(p) else None
  {
    var m := EncodePart(p).members;
    assert m.Keys == {Index, Key, Attempt, Status, MessageId, AutumnIds, AssociationStatus};
    var items := EncodeTexts(p.autumnIds);
    assert Texts(items) == p.autumnIds;
    if AreTokens(items) {
      forall i | 0 <= i < |p.autumnIds| ensures IsToken(p.autumnIds[i]) {
        assert items[i] == Text(p.autumnIds[i]);
      }
    }
  }

  lemma DecodeOneMorePart(vs: seq<Json>, before: Option<seq<Part>>, part: Option<Part>)
    requires vs != [] && DecodeParts(vs[..|vs| - 1]) == before && DecodePart(vs[|vs| - 1], |vs| - 1) == part
    ensures DecodeParts(vs) ==
              if before.Some? && part.Some? && (forall p :: p in before.value ==> p.key != part.value.key)
              then Some(before.value + [part.value]) else None
  {
  }

  lemma PartsSplit(ps: seq<Part>, n: nat)
    requires |ps| == n + 1
    ensures WellFormedParts(ps) <==>
              WellFormedParts(ps[..n]) && WellFormedPart(ps[n], n) && (forall p :: p in ps[..n] ==> p.key != ps[n].key)
  {
    if WellFormedParts(ps) {
      forall i | 0 <= i < n ensures WellFormedPart(ps[..n][i], i) {
        assert ps[i] == ps[..n][i];
      }
    }
    if WellFormedParts(ps[..n]) && WellFormedPart(ps[n], n) && (forall p :: p in ps[..n] ==> p.key != ps[n].key) {
      forall i | 0 <= i < n + 1 ensures WellFormedPart(ps[i], i) {
        assert i < n ==> ps[i] == ps[..n][i];
      }
      forall i, j | 0 <= i < j < n + 1 ensures ps[i].key != ps[j].key {
        assert ps[i] == ps[..n][i] && ps[i] in ps[..n];
        assert j < n ==> ps[j] == ps[..n][j];
      }
    }
  }

  function Accepted(ps: seq<Part>): Option<seq<Part>> {
    if WellFormedParts(ps) then Some(ps) else None
  }

  lemma AcceptedOneMore(ps: seq<Part>, n: nat, part: Option<Part>)
    requires |ps| == n + 1 && part == if WellFormedPart(ps[n], n) then Some(ps[n]) else None
    ensures var before := Accepted(ps[..n]);
            Accepted(ps) ==
              if before.Some? && part.Some? && (forall p :: p in before.value ==> p.key != part.value.key)
              then Some(before.value + [part.value]) else None
  {
    PartsSplit(ps, n);
    assert ps == ps[..n] + [ps[n]];
  }

  lemma {:induction false} PartsRoundTrip(ps: seq<Part>)
    ensures DecodeParts(EncodeParts(ps)) == Accepted(ps)
  {
    if ps != [] {
      var n := |ps| - 1;
      var vs := EncodeParts(ps);
      var part := if WellFormedPart(ps[n], n) then Some(ps[n]) else None;
      PartsRoundTrip(ps[..n]);
      PartRoundTrip(ps[n], n);
      assert vs[..n] == EncodeParts(ps[..n]);
      DecodeOneMorePart(vs, Accepted(ps[..n]), part);
      AcceptedOneMore(ps, n, part);
    }
  }

  lemma ReceiptMembers(r: Receipt)
    ensures HasExactly(EncodeReceipt(r), {Version, Namespace, ServiceDigest, Ref, RenderDigest, Parts})
    ensures var m := EncodeReceipt(r).members;
            && m[Version] == Int(r.version) && m[Namespace] == Text(r.namespace) && m[ServiceDigest] == Text(r.service)
            && m[Ref] == EncodeRef(r.ref) && m[RenderDigest] == Text(r.render) && m[Parts] == List(EncodeParts(r.parts))
  {
  }

  lemma DecodeMembers(v: Json, ref: Option<Reference>, parts: Option<seq<Part>>)
    requires HasExactly(v, {Version, Namespace, ServiceDigest, Ref, RenderDigest, Parts})
    requires var m := v.members;
             m[Namespace].Text? && m[ServiceDigest].Text? && m[RenderDigest].Text? && m[Parts].List?
    requires DecodeRef(v.members[Ref]) == ref && DecodeParts(v.members[Parts].items) == parts
    ensures var m := v.members;
            DecodeReceipt(v) ==
              if m[Version] == Int(1) && IsHex(m[Namespace].s, 32) && IsHex(m[ServiceDigest].s, 64)
                 && IsHex(m[RenderDigest].s, 64) && ref.Some? && m[Parts].items != [] && parts.Some?
              then Some(Receipt(1, m[Namespace].s, m[ServiceDigest].s, ref.value, m[RenderDigest].s, parts.value))
              else None
  {
  }

  /** Decoding what was encoded gives the receipt back, exactly when it is well formed. */
  lemma ReceiptRoundTrip(r: Receipt)
    ensures DecodeReceipt(EncodeReceipt(r)) == if WellFormedReceipt(r) then Some(r) else None
  {
    ReceiptMembers(r);
    RefRoundTrip(r.ref);
    PartsRoundTrip(r.parts);
    var ref := if WellFormedRef(r.ref) then Some(r.ref) else None;
    DecodeMembers(EncodeReceipt(r), ref, Accepted(r.parts));
  }

  lemma {:induction false} DecodedPartsAreWellFormed(vs: seq<Json>)
    ensures DecodeParts(vs).Some? ==> |DecodeParts(vs).value| == |vs| && WellFormedParts(DecodeParts(vs).value)
  {
    if vs != [] && DecodeParts(vs).Some? {
      var n := |vs| - 1;
      DecodedPartsAreWellFormed(vs[..n]);
      var ps := DecodeParts(vs).value;
      assert ps[..n] == DecodeParts(vs[..n]).value;
      DecodedPartIsWellFormed(vs[n], n);
      PartsSplit(ps, n);
    }
  }

  lemma DecodedPartIsWellFormed(v: Json, index: nat)
    ensures DecodePart(v, index).Some? ==> WellFormedPart(DecodePart(v, index).value, index)
  {
    if DecodePart(v, index).Some? {
      var items := v.members[AutumnIds].items;
      forall i | 0 <= i < |items| ensures IsToken(Texts(items)[i]) {
        assert items[i].Text?;
      }
    }
  }

  /** Whatever a receipt file holds, what is accepted from it is well formed, and saving and reading
      it once more changes nothing. */
  lemma DecodedIsStable(v: Json)
    ensures DecodeReceipt(v).Some? ==>
              WellFormedReceipt(DecodeReceipt(v).value)
              && DecodeReceipt(EncodeReceipt(DecodeReceipt(v).value)) == DecodeReceipt(v)
  {
    if DecodeReceipt(v).Some? {
      DecodedPartsAreWellFormed(v.members[Parts].items);
      ReceiptRoundTrip(DecodeReceipt(v).value);
    }
  }
}
