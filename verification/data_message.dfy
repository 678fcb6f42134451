/** The decrypted data message value object and its builder. Attachments and
    groups are opaque apart from the group's type. */
module TextSecureDataMessage {
  import opened Wrappers

  /** An attachment, kept opaque. */
  datatype Attachment = Attachment(handle: nat)

  datatype GroupType = Unknown | Update | Deliver | Quit

  /** Group information; only its type is inspected here. */
  datatype Group = Group(groupId: seq<bv8>, groupType: GroupType)

  /** A message. An absent field is `None`; a present attachment list is never empty. */
  datatype DataMessage = DataMessage(
    timestamp: int,
    attachments: Option<seq<Attachment>>,
    body: Option<string>,
    group: Option<Group>,
    endSession: bool)

  /** The full constructor. `None` arguments stand for Java nulls. */
  function Create(timestamp: int, group: Option<Group>, attachments: Option<seq<Attachment>>,
                  body: Option<string>, endSession: bool): (m: DataMessage)
    ensures m.attachments.None? <==> attachments.None? || attachments.value == []
    ensures m.attachments.Some? ==> m.attachments == attachments
    ensures m.attachments != Some([])
    ensures m.body == body && m.group == group
    ensures m.timestamp == timestamp && m.endSession == endSession
  {
    var kept := if attachments.Some? && |attachments.value| > 0 then attachments else None;
    DataMessage(timestamp, kept, body, group, endSession)
  }

  /** Group message with attachments and body; not an end-session message. */
  function CreateGroup(timestamp: int, group: Option<Group>, attachments: Option<seq<Attachment>>,
                       body: Option<string>): (m: DataMessage)
    ensures m == Create(timestamp, group, attachments, body, false)
    ensures !m.endSession
  {
    Create(timestamp, group, attachments, body, false)
  }

  /** Message with a list of attachments and a body; no group. */
  function CreateWithAttachments(timestamp: int, attachments: Option<seq<Attachment>>,
                                 body: Option<string>): (m: DataMessage)
    ensures m == Create(timestamp, None, attachments, body, false)
    ensures m.group.None? && !m.endSession
  {
    CreateGroup(timestamp, None, attachments, body)
  }

  /** Message with exactly one attachment and a body. */
  function CreateWithAttachment(timestamp: int, attachment: Attachment, body: Option<string>): (m: DataMessage)
    ensures m.attachments == Some([attachment])
    ensures m.body == body && m.group.None? && !m.endSession && m.timestamp == timestamp
  {
    CreateWithAttachments(timestamp, Some([attachment]), body)
  }

  /** Message with a body only. */
  function CreateText(timestamp: int, body: Option<string>): (m: DataMessage)
    ensures m.attachments.None? && m.group.None? && !m.endSession
    ensures m.body == body && m.timestamp == timestamp
  {
    CreateWithAttachments(timestamp, None, body)
  }

  /** A group message whose type is anything but a plain delivery. */
  function IsGroupUpdate(m: DataMessage): (r: bool)
    ensures r <==> m.group.Some? && m.group.value.groupType in {Unknown, Update, Quit}
  {
    m.group.Some? && m.group.value.groupType != Deliver
  }

  /** The builder's accumulated state. */
  datatype Builder = Builder(
    attachments: seq<Attachment>,
    timestamp: int,
    group: Option<Group>,
    body: Option<string>,
    endSession: bool)

  /** `newBuilder()`: a fresh builder. */
  function NewBuilder(): (b: Builder)
    ensures b.attachments == [] && b.timestamp == 0 && b.group.None? && b.body.None? && !b.endSession
  {
    Builder([], 0, None, None, false)
  }

  // Each setter changes its own field and leaves the others alone.

  function WithTimestamp(b: Builder, t: int): (r: Builder)
    ensures r.timestamp == t && r.(timestamp := b.timestamp) == b
  {
    b.(timestamp := t)
  }

  function AsGroupMessage(b: Builder, g: Option<Group>): (r: Builder)
    ensures r.group == g && r.(group := b.group) == b
  {
    b.(group := g)
  }

  function WithAttachment(b: Builder, a: Attachment): (r: Builder)
    ensures |r.attachments| == |b.attachments| + 1 && r.attachments[..|b.attachments|] == b.attachments
    ensures r.attachments[|b.attachments|] == a && r.(attachments := b.attachments) == b
  {
    b.(attachments := b.attachments + [a])
  }

  function WithAttachments(b: Builder, list: seq<Attachment>): (r: Builder)
    ensures |r.attachments| == |b.attachments| + |list|
    ensures r.attachments[..|b.attachments|] == b.attachments && r.attachments[|b.attachments|..] == list
    ensures r.(attachments := b.attachments) == b
  {
    b.(attachments := b.attachments + list)
  }

  function WithBody(b: Builder, body: Option<string>): (r: Builder)
    ensures r.body == body && r.(body := b.body) == b
  {
    b.(body := body)
  }

  function AsEndSessionMessage(b: Builder): (r: Builder)
    ensures r.endSession && r.(endSession := b.endSession) == b
  {
    b.(endSession := true)
  }

  function AsEndSessionMessageWith(b: Builder, flag: bool): (r: Builder)
    ensures r.endSession == flag && r.(endSession := b.endSession) == b
  {
    b.(endSession := flag)
  }

  /** What `build` returns, together with the builder it leaves behind: a zero
      timestamp is replaced by the clock in the builder itself. */
  datatype Built = Built(message: DataMessage, builder: Builder)

  function Build(b: Builder, clockMillis: int): (r: Built)
    ensures b.timestamp != 0 ==> r.message.timestamp == b.timestamp
    ensures b.timestamp == 0 ==> r.message.timestamp == clockMillis
    ensures r.builder == b.(timestamp := r.message.timestamp)
    ensures r.message == Create(r.message.timestamp, b.group, Some(b.attachments), b.body, b.endSession)
    ensures r.message.attachments.None? <==> b.attachments == []
  {
    var stamp := if b.timestamp == 0 then clockMillis else b.timestamp;
    Built(Create(stamp, b.group, Some(b.attachments), b.body, b.endSession), b.(timestamp := stamp))
  }

  /** One builder call. */
  datatype Call =
    | SetTimestamp(t: int)
    | SetGroup(g: Option<Group>)
    | AddAttachment(a: Attachment)
    | AddAttachments(list: seq<Attachment>)
    | SetBody(body: Option<string>)
    | MarkEndSession
    | SetEndSession(flag: bool)

  function Step(b: Builder, call: Call): Builder {
    match call
    case SetTimestamp(t) => WithTimestamp(b, t)
    case SetGroup(g) => AsGroupMessage(b, g)
    case AddAttachment(a) => WithAttachment(b, a)
    case AddAttachments(list) => WithAttachments(b, list)
    case SetBody(body) => WithBody(b, body)
    case MarkEndSession => AsEndSessionMessage(b)
    case SetEndSession(flag) => AsEndSessionMessageWith(b, flag)
  }

  /** The builder fields. */
  datatype BuilderField = TimestampField | GroupField | AttachmentsField | BodyField | EndSessionField

  /** The builder field a call writes. */
  function Field(call: Call): BuilderField {
    match call
    case SetTimestamp(_) => TimestampField
    case SetGroup(_) => GroupField
    case AddAttachment(_) => AttachmentsField
    case AddAttachments(_) => AttachmentsField
    case SetBody(_) => BodyField
    case MarkEndSession => EndSessionField
    case SetEndSession(_) => EndSessionField
  }

  /** A chain of builder calls, applied left to right. */
  function Run(b: Builder, calls: seq<Call>): Builder
    decreases |calls|
  {
    if |calls| == 0 then b else Run(Step(b, calls[0]), calls[1..])
  }

  /** The attachments the calls add, in call order. */
  function AddedAttachments(calls: seq<Call>): seq<Attachment>
    decreases |calls|
  {
    if |calls| == 0 then []
    else
      var last := calls[|calls| - 1];
      AddedAttachments(calls[..|calls| - 1])
        + (match last
           case AddAttachment(a) => [a]
           case AddAttachments(list) => list
           case _ => [])
  }

  /** The end-session flag set by the last call that sets it, else `initial`. */
  function LastEndSession(calls: seq<Call>, initial: bool): bool
    decreases |calls|
  {
    if |calls| == 0 then initial
    else
      match calls[|calls| - 1]
      case MarkEndSession => true
      case SetEndSession(flag) => flag
      case _ => LastEndSession(calls[..|calls| - 1], initial)
  }

  // ---------------------------------------------------------------------------
  // Properties

  /** Calls that write different fields can be made in either order. */
  lemma CallsOnDifferentFieldsCommute(b: Builder, x: Call, y: Call)
    requires Field(x) != Field(y)
    ensures Step(Step(b, x), y) == Step(Step(b, y), x)
  {
  }

  /** A later call on a field overrides an earlier one, except that attachments accumulate. */
  lemma LaterCallOverrides(b: Builder, x: Call, y: Call)
    requires Field(x) == Field(y) != AttachmentsField
    ensures Step(Step(b, x), y) == Step(b, y)
  {
  }

  /** A message is a group update exactly when it was given a group that is not a delivery. */
  lemma GroupUpdateOfCreate(timestamp: int, group: Option<Group>, attachments: Option<seq<Attachment>>,
                            body: Option<string>, endSession: bool)
    ensures IsGroupUpdate(Create(timestamp, group, attachments, body, endSession))
        <==> group.Some? && group.value.groupType != Deliver
  {
  }

  /** Messages made without a group are never group updates. */
  lemma GrouplessIsNotGroupUpdate(timestamp: int, attachments: Option<seq<Attachment>>,
                                  attachment: Attachment, body: Option<string>)
    ensures !IsGroupUpdate(CreateWithAttachments(timestamp, attachments, body))
    ensures !IsGroupUpdate(CreateWithAttachment(timestamp, attachment, body))
    ensures !IsGroupUpdate(CreateText(timestamp, body))
  {
  }

  lemma AddedAttachmentsCons(call: Call, calls: seq<Call>)
    ensures AddedAttachments([call] + calls)
         == AddedAttachments([call]) + AddedAttachments(calls)
    decreases |calls|
  {
    var s := [call] + calls;
    if |calls| > 0 {
      assert s[..|s| - 1] == [call] + calls[..|calls| - 1];
      AddedAttachmentsCons(call, calls[..|calls| - 1]);
    } else {
      assert s == [call];
    }
  }

  /** The builder keeps the attachments of every call, in call order. */
  lemma {:induction false} RunAttachments(b: Builder, calls: seq<Call>)
    ensures Run(b, calls).attachments == b.attachments + AddedAttachments(calls)
    decreases |calls|
  {
    if |calls| > 0 {
      RunAttachments(Step(b, calls[0]), calls[1..]);
      assert calls == [calls[0]] + calls[1..];
      AddedAttachmentsCons(calls[0], calls[1..]);
      StepAttachments(b, calls[0]);
    }
  }

  /** One call adds its own attachments, if any. */
  lemma StepAttachments(b: Builder, call: Call)
    ensures Step(b, call).attachments == b.attachments + AddedAttachments([call])
  {
    assert [call][..0] == [];
  }

  lemma LastEndSessionCons(call: Call, calls: seq<Call>, initial: bool)
    ensures LastEndSession([call] + calls, initial) == LastEndSession(calls, LastEndSession([call], initial))
    decreases |calls|
  {
    var s := [call] + calls;
    if |calls| > 0 {
      assert s[..|s| - 1] == [call] + calls[..|calls| - 1];
      LastEndSessionCons(call, calls[..|calls| - 1], initial);
    } else {
      assert s == [call];
    }
  }

  /** The last end-session call wins; without one the initial flag stays. */
  lemma {:induction false} RunEndSession(b: Builder, calls: seq<Call>)
    ensures Run(b, calls).endSession == LastEndSession(calls, b.endSession)
    decreases |calls|
  {
    if |calls| > 0 {
      RunEndSession(Step(b, calls[0]), calls[1..]);
      assert calls == [calls[0]] + calls[1..];
      LastEndSessionCons(calls[0], calls[1..], b.endSession);
      assert [calls[0]][..0] == [];
    }
  }

  /** Building after calls that add no attachment yields a message without attachments. */
  lemma BuildWithoutAttachments(calls: seq<Call>, clockMillis: int)
    requires AddedAttachments(calls) == []
    ensures Build(Run(NewBuilder(), calls), clockMillis).message.attachments.None?
  {
    RunAttachments(NewBuilder(), calls);
  }

  /** The message built after a chain of calls on a fresh builder: the added
      attachments in call order (absent if none), the last end-session call's flag. */
  lemma BuildFromCalls(calls: seq<Call>, clockMillis: int)
    ensures var m := Build(Run(NewBuilder(), calls), clockMillis).message;
      && (AddedAttachments(calls) == [] ==> m.attachments.None?)
      && (AddedAttachments(calls) != [] ==> m.attachments == Some(AddedAttachments(calls)))
      && m.endSession == LastEndSession(calls, false)
  {
    RunAttachments(NewBuilder(), calls);
    RunEndSession(NewBuilder(), calls);
    assert NewBuilder().attachments + AddedAttachments(calls) == AddedAttachments(calls);
  }

  /** Building again from the builder `build` left behind gives the same message:
      the clock value, once taken, sticks to the builder. */
  lemma BuildAgainKeepsTimestamp(b: Builder, clock1: int, clock2: int)
    requires b.timestamp != 0 || clock1 != 0
    ensures Build(Build(b, clock1).builder, clock2).message == Build(b, clock1).message
  {
  }
}
