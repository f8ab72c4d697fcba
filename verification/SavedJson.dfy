/** Parsed JSON, as far as saved state and receipts use it. */
module SavedJson {

  /** Member names of the saved records. Other is any other text, such as the keys of id maps. */
  datatype Name =
    | Version | Namespace | ServiceDigest | Ref | RenderDigest | Parts
    | Index | Key | Attempt | Status | MessageId | AutumnIds | AssociationStatus
    | SourceChannelId | SourceMessageId | DestinationChannelId | Family | Generation
    | DiscordMsgId | StoatChannelId | Error | RetryCount | ContentPreview | DeliveryRef
    | DeliveryNamespace | DeliveryServiceDigest | DeliveryBookkeeping | PendingDeliveryReplacements
    | RoleMap | PendingPins | FailedMessages | RollbackProgress
    | CompletedAt | CompletedChannelIds | ReferencedAutumnIds | RolesFinalized | ForumIndexPresentUnknownId
    | ChannelsDeleted | RolesDeleted | EmojiDeleted | CategoriesCleaned | UntrackedChannelsDeleted
    | RolledBackIds | Failures | StartedAt | EntityType | StoatId | HttpStatus
    | StoatServerId | ChannelMap | ThreadParentIds | CategoryMap | EmojiMap | MessageMap
    | ForumIndexMessageIds | PendingReactions | PendingEmojiRewrites | IsDryRun
    | ChannelId | Emoji | Old | New
    | Other(text: string)

  /** Numbers other than integers are Fraction. */
  datatype Json =
    | Null
    | Bool(b: bool)
    | Int(i: int)
    | Fraction(r: real)
    | Text(s: string)
    | List(items: seq<Json>)
    | Object(members: map<Name, Json>)

  function TextOf(v: Json): string {
    if v.Text? then v.s else ""
  }

  function EncodeTexts(ts: seq<string>): (r: seq<Json>)
    ensures |r| == |ts| && forall i :: 0 <= i < |ts| ==> r[i] == Text(ts[i])
  {
    seq(|ts|, i requires 0 <= i < |ts| => Text(ts[i]))
  }

  function Texts(vs: seq<Json>): (r: seq<string>)
    ensures |r| == |vs| && forall i :: 0 <= i < |vs| ==> r[i] == TextOf(vs[i])
  {
    seq(|vs|, i requires 0 <= i < |vs| => TextOf(vs[i]))
  }
}
