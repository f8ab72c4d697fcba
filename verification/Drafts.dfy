/**
 `FeedbackDraft`: an editable report whose request id stands for its content and whose two
 acknowledgements stand for what the user has seen.
 */
module Drafts {
  import opened Common
  import opened Truncation

  datatype Kind = Bug | Idea | General

  /** Diagnostics that passed their own check. */
  datatype Diagnostics = Diagnostics(version: string, environment: string, lastError: Option<string>, logExcerpt: Option<string>)

  type RequestId = nat

  datatype Draft = Draft(
    kind: Kind,
    description: string,
    expected: Option<string>,
    reproduction: Option<string>,
    diagnostics: Option<Diagnostics>,
    contact: Option<string>,
    privateNames: seq<(string, string)>,
    id: RequestId,
    publicAcknowledged: bool,
    diagnosticsAcknowledged: bool
  )

  datatype Edit =
    | Kinded(kind: Kind)
    | Described(text: string)
    | Expected(optional: Option<string>)
    | Reproduced(optional: Option<string>)
    | Diagnosed(diagnostics: Option<Diagnostics>)
    | Contact(address: Option<string>)
    | PrivateNames(names: seq<(string, string)>)
    | AcknowledgePublic
    | AcknowledgeDiagnostics

  // ----- input checks

  /** `_optional_text`; the outer None is a refusal. */
  function OptionalText(value: Option<string>, maximum: nat): Option<Option<string>> {
    if value.None? || value.value == "" then Some(None)
    else
      var v := NormalizeText(value.value, 1, maximum);
      if v.Accepted? then Some(Some(v.text)) else None
  }

  predicate IsAddress(s: string) {
    && |s| <= 254
    && (forall c :: c in s ==> 0x20 < c as int < 0x7F)
    && multiset(s)['@'] == 1
    && s[0] != '@' && s[|s| - 1] != '@'
  }

  /** `_contact_email` */
  function ContactEmail(value: Option<string>): Option<Option<string>> {
    if value.None? || value.value == "" then Some(None)
    else if IsAddress(value.value) then Some(value) else None
  }

  /** At most 254 visible ASCII characters, one of them an @ that is neither first nor last. */
  ghost predicate OneAtInside(s: string) {
    && |s| <= 254
    && (forall i :: 0 <= i < |s| ==> 33 <= s[i] as int <= 126)
    && exists i :: 0 < i < |s| - 1 && s[i] == '@' && forall j :: 0 <= j < |s| && s[j] == '@' ==> j == i
  }

  lemma OneOccurrence(s: string, i: nat)
    requires i < |s| && s[i] == '@'
    ensures multiset(s)['@'] == 1 <==> forall j :: 0 <= j < |s| && s[j] == '@' ==> j == i
  {
    var a, b := s[..i], s[i + 1..];
    assert s == a + ['@'] + b;
    assert multiset(s)['@'] == multiset(a)['@'] + 1 + multiset(b)['@'];
    assert multiset(a)['@'] > 0 <==> '@' in a;
    assert multiset(b)['@'] > 0 <==> '@' in b;
    if j :| 0 <= j < |s| && s[j] == '@' && j != i {
      assert j < i ==> a[j] == '@';
      assert j > i ==> b[j - i - 1] == '@';
    }
    assert forall k :: 0 <= k < |a| ==> a[k] == s[k];
    assert forall k :: 0 <= k < |b| ==> b[k] == s[i + 1 + k];
  }

  lemma AddressExactly(value: Option<string>)
    ensures ContactEmail(value).Some? <==> value.None? || value.value == "" || OneAtInside(value.value)
    ensures ContactEmail(value).Some? ==> ContactEmail(value).value == if value.None? || value.value == "" then None else value
  {
    if value.Some? && value.value != "" {
      var s := value.value;
      if '@' in s {
        var i :| 0 <= i < |s| && s[i] == '@';
        OneOccurrence(s, i);
      } else {
        assert multiset(s)['@'] == 0;
      }
      assert forall i :: 0 <= i < |s| ==> s[i] in s;
    }
  }

  // ----- one edit

  /** `content` is the draft with the field already set. */
  function Accept(d: Draft, content: Draft, minted: RequestId): Draft {
    content.(id := if Content(content) == Content(d) then d.id else minted)
  }

  /** The draft after an accepted edit, or None when the input is refused. */
  function Attempt(d: Draft, e: Edit, minted: RequestId): Option<Draft> {
    match e
    case Kinded(kind) => Some(Accept(d, d.(kind := kind, publicAcknowledged := false), minted))
    case Described(text) =>
      var v := NormalizeText(text, 1, 8000);
      if v.Accepted? then Some(Accept(d, d.(description := v.text, publicAcknowledged := false), minted)) else None
    case Expected(text) =>
      var v := OptionalText(text, 4000);
      if v.Some? then Some(Accept(d, d.(expected := v.value, publicAcknowledged := false), minted)) else None
    case Reproduced(text) =>
      var v := OptionalText(text, 4000);
      if v.Some? then Some(Accept(d, d.(reproduction := v.value, publicAcknowledged := false), minted)) else None
    case Diagnosed(diagnostics) =>
      Some(Accept(d, d.(diagnostics := diagnostics, publicAcknowledged := false, diagnosticsAcknowledged := false), minted))
    case Contact(address) =>
      var v := ContactEmail(address);
      if v.Some? then Some(Accept(d, d.(contact := v.value), minted)) else None
    case PrivateNames(names) => Some(Accept(d, d.(privateNames := names, publicAcknowledged := false), minted))
    case AcknowledgePublic => Some(d.(publicAcknowledged := true))
    case AcknowledgeDiagnostics => if d.diagnostics.Some? then Some(d.(diagnosticsAcknowledged := true)) else None
  }

  function After(d: Draft, e: Edit, minted: RequestId): Draft {
    var r := Attempt(d, e, minted);
    if r.Some? then r.value else d
  }

  /** What a request id stands for. */
  datatype Substance = Substance(
    public: PublicPart,
    contact: Option<string>
  )

  /** What the public acknowledgement covers. */
  datatype PublicPart = PublicPart(
    kind: Kind,
    description: string,
    expected: Option<string>,
    reproduction: Option<string>,
    diagnostics: Option<Diagnostics>,
    privateNames: seq<(string, string)>
  )

  function Public(d: Draft): PublicPart {
    PublicPart(d.kind, d.description, d.expected, d.reproduction, d.diagnostics, d.privateNames)
  }

  function Content(d: Draft): Substance {
    Substance(Public(d), d.contact)
  }

  // ----- in place

  class FeedbackDraft {
    var kind: Kind
    var description: string
    var expected: Option<string>
    var reproduction: Option<string>
    var diagnostics: Option<Diagnostics>
    var contactEmail: Option<string>
    var privateNames: seq<(string, string)>
    var requestId: RequestId
    var publicAcknowledged: bool
    var diagnosticsAcknowledged: bool

    function Value(): Draft
      reads this
    {
      Draft(kind, description, expected, reproduction, diagnostics, contactEmail, privateNames, requestId,
            publicAcknowledged, diagnosticsAcknowledged)
    }

    constructor (kind: Kind, description: string, id: RequestId)
      ensures Value() == Draft(kind, description, None, None, None, None, [], id, false, false)
    {
      this.kind, this.description, this.requestId := kind, description, id;
      expected, reproduction, diagnostics, contactEmail := None, None, None, None;
      privateNames, publicAcknowledged, diagnosticsAcknowledged := [], false, false;
    }

    method ReplaceRequestIdIfContentChanged(changed: bool, minted: RequestId)
      modifies this`requestId
      ensures requestId == if changed then minted else old(requestId)
    {
      if changed {
        requestId := minted;
      }
    }

    method EditKind(newKind: Kind, minted: RequestId)
      modifies this
      ensures Attempt(old(Value()), Kinded(newKind), minted) == Some(Value())
      ensures Value() == old(Value()).(kind := newKind, publicAcknowledged := false,
                id := if newKind == old(kind) then old(requestId) else minted)
    {
      ReplaceRequestIdIfContentChanged(kind != newKind, minted);
      kind := newKind;
      publicAcknowledged := false;
    }

    /** A refused text raises before any field is touched. */
    method EditDescription(text: string, minted: RequestId) returns (accepted: bool)
      modifies this
      ensures accepted <==> Attempt(old(Value()), Described(text), minted).Some?
      ensures Value() == After(old(Value()), Described(text), minted)
      ensures var v := NormalizeText(text, 1, 8000);
              && (accepted <==> v.Accepted?)
              && Value() == if v.Accepted? then old(Value()).(description := v.text, publicAcknowledged := false,
                   id := if v.text == old(description) then old(requestId) else minted) else old(Value())
    {
      var v := NormalizeText(text, 1, 8000);
      if !v.Accepted? {
        return false;
      }
      ReplaceRequestIdIfContentChanged(description != v.text, minted);
      description := v.text;
      publicAcknowledged := false;
      accepted := true;
    }

    method EditExpected(text: Option<string>, minted: RequestId) returns (accepted: bool)
      modifies this
      ensures accepted <==> Attempt(old(Value()), Expected(text), minted).Some?
      ensures Value() == After(old(Value()), Expected(text), minted)
      ensures accepted <==> text.None? || text.value == "" || NormalizeText(text.value, 1, 4000).Accepted?
      ensures accepted ==>
                && expected == (if text.None? || text.value == "" then None else Some(NormalizeText(text.value, 1, 4000).text))
                && Value() == old(Value()).(expected := expected, publicAcknowledged := false,
                     id := if expected == old(expected) then old(requestId) else minted)
      ensures !accepted ==> Value() == old(Value())
    {
      var v := OptionalText(text, 4000);
      if v.None? {
        return false;
      }
      ReplaceRequestIdIfContentChanged(expected != v.value, minted);
      expected := v.value;
      publicAcknowledged := false;
      accepted := true;
    }

    method EditReproduction(text: Option<string>, minted: RequestId) returns (accepted: bool)
      modifies this
      ensures accepted <==> Attempt(old(Value()), Reproduced(text), minted).Some?
      ensures Value() == After(old(Value()), Reproduced(text), minted)
      ensures accepted <==> text.None? || text.value == "" || NormalizeText(text.value, 1, 4000).Accepted?
      ensures accepted ==>
                && reproduction == (if text.None? || text.value == "" then None else Some(NormalizeText(text.value, 1, 4000).text))
                && Value() == old(Value()).(reproduction := reproduction, publicAcknowledged := false,
                     id := if reproduction == old(reproduction) then old(requestId) else minted)
      ensures !accepted ==> Value() == old(Value())
    {
      var v := OptionalText(text, 4000);
      if v.None? {
        return false;
      }
      ReplaceRequestIdIfContentChanged(reproduction != v.value, minted);
      reproduction := v.value;
      publicAcknowledged := false;
      accepted := true;
    }

    method EditDiagnostics(newDiagnostics: Option<Diagnostics>, minted: RequestId)
      modifies this
      ensures Attempt(old(Value()), Diagnosed(newDiagnostics), minted) == Some(Value())
      ensures Value() == old(Value()).(diagnostics := newDiagnostics, publicAcknowledged := false, diagnosticsAcknowledged := false,
                id := if newDiagnostics == old(diagnostics) then old(requestId) else minted)
    {
      ReplaceRequestIdIfContentChanged(diagnostics != newDiagnostics, minted);
      diagnostics := newDiagnostics;
      publicAcknowledged := false;
      diagnosticsAcknowledged := false;
    }

    method EditContactEmail(address: Option<string>, minted: RequestId) returns (accepted: bool)
      modifies this
      ensures accepted <==> Attempt(old(Value()), Contact(address), minted).Some?
      ensures Value() == After(old(Value()), Contact(address), minted)
      ensures accepted <==> address.None? || address.value == "" || OneAtInside(address.value)
      ensures accepted ==>
                && contactEmail == (if address.None? || address.value == "" then None else address)
                && Value() == old(Value()).(contact := contactEmail,
                     id := if contactEmail == old(contactEmail) then old(requestId) else minted)
      ensures !accepted ==> Value() == old(Value())
    {
      AddressExactly(address);
      var v := ContactEmail(address);
      if v.None? {
        return false;
      }
      ReplaceRequestIdIfContentChanged(contactEmail != v.value, minted);
      contactEmail := v.value;
      accepted := true;
    }

    method SetPrivateNames(names: seq<(string, string)>, minted: RequestId)
      modifies this
      ensures Attempt(old(Value()), PrivateNames(names), minted) == Some(Value())
      ensures Value() == old(Value()).(privateNames := names, publicAcknowledged := false,
                id := if names == old(privateNames) then old(requestId) else minted)
    {
      ReplaceRequestIdIfContentChanged(privateNames != names, minted);
      privateNames := names;
      publicAcknowledged := false;
    }

    method GivePublicAcknowledgement()
      modifies this
      ensures Attempt(old(Value()), AcknowledgePublic, requestId) == Some(Value())
      ensures Value() == old(Value()).(publicAcknowledged := true)
    {
      publicAcknowledged := true;
    }

    method GiveDiagnosticsAcknowledgement() returns (accepted: bool)
      modifies this
      ensures accepted <==> Attempt(old(Value()), AcknowledgeDiagnostics, requestId).Some?
      ensures Value() == After(old(Value()), AcknowledgeDiagnostics, requestId)
      ensures accepted <==> old(diagnostics).Some?
      ensures Value() == old(Value()).(diagnosticsAcknowledged := old(diagnosticsAcknowledged) || accepted)
    {
      if diagnostics.None? {
        return false;
      }
      diagnosticsAcknowledged := true;
      accepted := true;
    }
  }

  // ----- whole editing sessions

  /** The draft before each edit and after the last. */
  function States(d: Draft, edits: seq<Edit>, minted: seq<RequestId>): (r: seq<Draft>)
    requires |edits| == |minted|
    ensures |r| == |edits| + 1 && r[0] == d
    decreases |edits|
  {
    if edits == [] then [d] else [d] + States(After(d, edits[0], minted[0]), edits[1..], minted[1..])
  }

  /** The ids a session can ever show differ from each other (uuid4). */
  ghost predicate FreshIds(d: Draft, minted: seq<RequestId>) {
    NoDuplicates([d.id] + minted)
  }

  lemma {:induction false} StatesStep(d: Draft, edits: seq<Edit>, minted: seq<RequestId>, k: nat)
    requires k < |edits| == |minted|
    ensures States(d, edits, minted)[k + 1] == After(States(d, edits, minted)[k], edits[k], minted[k])
    decreases k
  {
    if k > 0 {
      StatesStep(After(d, edits[0], minted[0]), edits[1..], minted[1..], k - 1);
    }
  }

  /** One edit keeps the id exactly when it keeps the content. */
  lemma IdFollowsContent(d: Draft, e: Edit, minted: RequestId)
    requires minted != d.id
    ensures After(d, e, minted).id == d.id <==> Content(After(d, e, minted)) == Content(d)
    ensures After(d, e, minted).id in {d.id, minted}
  {
  }

  lemma IdStep(d: Draft, edits: seq<Edit>, minted: seq<RequestId>, k: nat)
    requires k < |edits| == |minted|
    ensures States(d, edits, minted)[k + 1].id in {States(d, edits, minted)[k].id, minted[k]}
  {
    StatesStep(d, edits, minted, k);
  }

  /** Where an id was minted: 0 for the first one. */
  lemma {:induction false} IdSoFar(d: Draft, edits: seq<Edit>, minted: seq<RequestId>, j: nat) returns (n: nat)
    requires j <= |edits| == |minted|
    ensures n <= j && States(d, edits, minted)[j].id == ([d.id] + minted)[n]
    decreases j
  {
    if j == 0 {
      n := 0;
    } else {
      IdStep(d, edits, minted, j - 1);
      n := IdSoFar(d, edits, minted, j - 1);
      if States(d, edits, minted)[j].id != States(d, edits, minted)[j - 1].id {
        n := j;
      }
    }
  }

  lemma {:induction false} LaterId(d: Draft, edits: seq<Edit>, minted: seq<RequestId>, i: nat, j: nat) returns (n: nat)
    requires i <= j <= |edits| == |minted| && FreshIds(d, minted)
    ensures n <= j && States(d, edits, minted)[j].id == ([d.id] + minted)[n]
    ensures n > i || (States(d, edits, minted)[j].id == States(d, edits, minted)[i].id
                      && Content(States(d, edits, minted)[j]) == Content(States(d, edits, minted)[i]))
    decreases j
  {
    if i == j {
      n := IdSoFar(d, edits, minted, j);
    } else {
      var s, ids := States(d, edits, minted), [d.id] + minted;
      StatesStep(d, edits, minted, j - 1);
      n := LaterId(d, edits, minted, i, j - 1);
      assert ids[j] == minted[j - 1] && ids[n] != ids[j];
      IdFollowsContent(s[j - 1], edits[j - 1], minted[j - 1]);
      if s[j].id != s[j - 1].id {
        n := j;
      }
    }
  }

  /** Main result on request ids: two moments of a session show the same id exactly when no edit in
      between changed the content, and then they show the same content. */
  lemma SameIdSameContent(d: Draft, edits: seq<Edit>, minted: seq<RequestId>, i: nat, j: nat)
    requires i <= j <= |edits| == |minted| && FreshIds(d, minted)
    ensures var s := States(d, edits, minted);
            && (s[i].id == s[j].id ==> Content(s[i]) == Content(s[j]))
            && (s[i].id == s[j].id <==> forall k :: i <= k < j ==> Content(s[k + 1]) == Content(s[k]))
    decreases j
  {
    var s, ids := States(d, edits, minted), [d.id] + minted;
    var m := IdSoFar(d, edits, minted, i);
    var n := LaterId(d, edits, minted, i, j);
    if n > i {
      assert ids[m] != ids[n];
    }
    if i < j {
      var p := LaterId(d, edits, minted, i, j - 1);
      SameIdSameContent(d, edits, minted, i, j - 1);
      StatesStep(d, edits, minted, j - 1);
      assert ids[j] == minted[j - 1] && ids[p] != ids[j] && ids[m] != ids[j];
      IdFollowsContent(s[j - 1], edits[j - 1], minted[j - 1]);
    }
  }

  // ----- what the acknowledgements cover

  /** Accepted edits that withdraw the public acknowledgement, even when they change nothing. */
  predicate TouchesPublic(d: Draft, e: Edit, minted: RequestId) {
    Attempt(d, e, minted).Some? && !e.Contact? && !e.AcknowledgePublic? && !e.AcknowledgeDiagnostics?
  }

  lemma AcknowledgementStep(d: Draft, e: Edit, minted: RequestId)
    ensures After(d, e, minted).publicAcknowledged <==>
              e.AcknowledgePublic? || (d.publicAcknowledged && !TouchesPublic(d, e, minted))
    ensures !TouchesPublic(d, e, minted) ==> Public(After(d, e, minted)) == Public(d)
  {
  }

  /** The acknowledgement given by edit `i` still stands before edit `j`. */
  ghost predicate StandsSince(d: Draft, edits: seq<Edit>, minted: seq<RequestId>, i: nat, j: nat)
    requires i < j <= |edits| == |minted|
  {
    && edits[i].AcknowledgePublic?
    && forall k :: i < k < j ==> !TouchesPublic(States(d, edits, minted)[k], edits[k], minted[k])
  }

  lemma {:induction false} StandingIsAcknowledged(d: Draft, edits: seq<Edit>, minted: seq<RequestId>, i: nat, j: nat)
    requires i < j <= |edits| == |minted| && StandsSince(d, edits, minted, i, j)
    ensures States(d, edits, minted)[j].publicAcknowledged
    ensures Public(States(d, edits, minted)[j]) == Public(States(d, edits, minted)[i])
    decreases j
  {
    var s := States(d, edits, minted);
    StatesStep(d, edits, minted, j - 1);
    AcknowledgementStep(s[j - 1], edits[j - 1], minted[j - 1]);
    if i < j - 1 {
      StandingIsAcknowledged(d, edits, minted, i, j - 1);
    }
  }

  lemma {:induction false} AcknowledgedStands(d: Draft, edits: seq<Edit>, minted: seq<RequestId>, j: nat) returns (i: nat)
    requires 0 < j <= |edits| == |minted| && !d.publicAcknowledged
    requires States(d, edits, minted)[j].publicAcknowledged
    ensures i < j && StandsSince(d, edits, minted, i, j)
    decreases j
  {
    var s := States(d, edits, minted);
    StatesStep(d, edits, minted, j - 1);
    AcknowledgementStep(s[j - 1], edits[j - 1], minted[j - 1]);
    if edits[j - 1].AcknowledgePublic? {
      i := j - 1;
    } else {
      i := AcknowledgedStands(d, edits, minted, j - 1);
    }
  }

  /** Main result on the public acknowledgement: it is set exactly when it was given and no public
      field was edited since, and then kind, texts, diagnostics and private names are the same as
      when it was last given. */
  lemma AcknowledgedExactly(d: Draft, edits: seq<Edit>, minted: seq<RequestId>, j: nat)
    requires j <= |edits| == |minted| && !d.publicAcknowledged
    ensures States(d, edits, minted)[j].publicAcknowledged <==>
              exists i :: 0 <= i < j && StandsSince(d, edits, minted, i, j)
    ensures forall i :: 0 <= i < j && StandsSince(d, edits, minted, i, j) ==>
              Public(States(d, edits, minted)[j]) == Public(States(d, edits, minted)[i])
  {
    if States(d, edits, minted)[j].publicAcknowledged && j > 0 {
      var i := AcknowledgedStands(d, edits, minted, j);
    }
    forall i | 0 <= i < j && StandsSince(d, edits, minted, i, j)
      ensures States(d, edits, minted)[j].publicAcknowledged
      ensures Public(States(d, edits, minted)[j]) == Public(States(d, edits, minted)[i])
    {
      StandingIsAcknowledged(d, edits, minted, i, j);
    }
  }

  /** Acknowledged diagnostics exist and are the ones acknowledged. */
  lemma {:induction false} DiagnosticsAcknowledged(d: Draft, edits: seq<Edit>, minted: seq<RequestId>, j: nat) returns (i: nat)
    requires j <= |edits| == |minted| && !d.diagnosticsAcknowledged
    requires States(d, edits, minted)[j].diagnosticsAcknowledged
    ensures i < j && edits[i].AcknowledgeDiagnostics?
    ensures States(d, edits, minted)[j].diagnostics.Some?
    ensures States(d, edits, minted)[j].diagnostics == States(d, edits, minted)[i].diagnostics
    ensures forall k :: i < k < j ==> !edits[k].Diagnosed?
    decreases j
  {
    var s := States(d, edits, minted);
    assert j > 0;
    StatesStep(d, edits, minted, j - 1);
    if edits[j - 1].AcknowledgeDiagnostics? && s[j - 1].diagnostics.Some? {
      i := j - 1;
    } else {
      i := DiagnosticsAcknowledged(d, edits, minted, j - 1);
    }
  }

  // ----- the body the user saw

  /** What `render_public_body` reads. */
  datatype Body = Body(id: RequestId, public: PublicPart, contactAvailable: bool)

  function RenderedFrom(d: Draft): Body {
    Body(d.id, Public(d).(kind := Bug), d.contact.Some?)
  }

  /** The body seen when the acknowledgement was given is the present one exactly when the contact
      address was not edited to another value since: that edit keeps the acknowledgement. */
  lemma AcknowledgedBodyExactly(d: Draft, edits: seq<Edit>, minted: seq<RequestId>, i: nat, j: nat)
    requires i < j <= |edits| == |minted| && FreshIds(d, minted) && StandsSince(d, edits, minted, i, j)
    ensures RenderedFrom(States(d, edits, minted)[j]) == RenderedFrom(States(d, edits, minted)[i]) <==>
              forall k :: i <= k < j ==> States(d, edits, minted)[k + 1].contact == States(d, edits, minted)[k].contact
  {
    var s := States(d, edits, minted);
    SameIdSameContent(d, edits, minted, i, j);
    forall k | i <= k < j ensures Public(s[k + 1]) == Public(s[k]) {
      StatesStep(d, edits, minted, k);
      AcknowledgementStep(s[k], edits[k], minted[k]);
    }
  }

  lemma ContactKeepsAcknowledgement(d: Draft, minted: RequestId)
    requires d.publicAcknowledged && d.contact == None && minted != d.id
    ensures var e := After(d, Contact(Some("a@b")), minted);
            e.publicAcknowledged && RenderedFrom(e) != RenderedFrom(d)
  {
    assert IsAddress("a@b");
  }
}
