/**
 * The persistent session store: traveller preferences plus the ordered chat
 * history, converted to and from the tagged records of the state file.
 */
module Memory {
  import opened Wrappers
  import opened Extraction

  datatype Role = Human | AI

  /** One message of the conversation. */
  datatype Turn = Turn(role: Role, content: string)

  const HumanTag := "human"
  const AiTag := "ai"

  /** One `{type, content}` record of the state file; a missing key is `None`. */
  datatype StoredMessage = StoredMessage(tag: Option<string>, content: Option<string>)

  /** The decoded top-level object of the state file; a missing key is `None`. */
  datatype Document = Document(preferences: Option<PrefMap>, history: Option<seq<StoredMessage>>)

  predicate IsKnownTag(tag: Option<string>) {
    tag == Some(HumanTag) || tag == Some(AiTag)
  }

  function TagOf(role: Role): string {
    match role
    case Human => HumanTag
    case AI => AiTag
  }

  /** What one record contributes to the history: a turn for the tags `human`
      and `ai` (with `""` for a missing content), nothing for any other tag. */
  function TurnOf(message: StoredMessage): (t: Option<Turn>)
    ensures t.Some? <==> IsKnownTag(message.tag)
    ensures t.Some? ==> TagOf(t.value.role) == message.tag.value
    ensures t.Some? ==> t.value.content == message.content.GetOr("")
  {
    var content := message.content.GetOr("");
    if message.tag == Some(HumanTag) then Some(Turn(Human, content))
    else if message.tag == Some(AiTag) then Some(Turn(AI, content))
    else None
  }

  function Emitted(t: Option<Turn>): seq<Turn> {
    match t
    case Some(turn) => [turn]
    case None => []
  }

  /** The history `_history_from_messages` rebuilds from the stored records. */
  function DecodeHistory(messages: seq<StoredMessage>): seq<Turn> {
    if messages == [] then []
    else DecodeHistory(messages[..|messages| - 1]) + Emitted(TurnOf(messages[|messages| - 1]))
  }

  /** The record `_messages_from_history` writes for one turn. */
  function Encoded(t: Turn): StoredMessage {
    StoredMessage(Some(TagOf(t.role)), Some(t.content))
  }

  /** The records `_messages_from_history` writes for a history. */
  function EncodeHistory(history: seq<Turn>): seq<StoredMessage> {
    seq(|history|, i requires 0 <= i < |history| => Encoded(history[i]))
  }

  /** `_history_from_messages`: one pass over the records, appending a turn for each known tag. */
  method HistoryFromMessages(messages: seq<StoredMessage>) returns (history: seq<Turn>)
    ensures history == DecodeHistory(messages)
  {
    history := [];
    for i := 0 to |messages|
      invariant history == DecodeHistory(messages[..i])
    {
      assert messages[..i + 1][..i] == messages[..i];
      var content := messages[i].content.GetOr("");
      if messages[i].tag == Some(HumanTag) {
        history := history + [Turn(Human, content)];
      } else if messages[i].tag == Some(AiTag) {
        history := history + [Turn(AI, content)];
      }
    }
    assert messages[..|messages|] == messages;
  }

  /** `_messages_from_history`: one pass over the turns, appending a tagged record for each. */
  method MessagesFromHistory(history: seq<Turn>) returns (serialised: seq<StoredMessage>)
    ensures serialised == EncodeHistory(history)
  {
    serialised := [];
    for i := 0 to |history|
      invariant serialised == EncodeHistory(history[..i])
    {
      match history[i].role
      case Human =>
        serialised := serialised + [StoredMessage(Some(HumanTag), Some(history[i].content))];
      case AI =>
        serialised := serialised + [StoredMessage(Some(AiTag), Some(history[i].content))];
    }
    assert history[..|history|] == history;
  }

  /** Decoding distributes over concatenation: records are kept in their original order. */
  lemma {:induction false} DecodeConcat(a: seq<StoredMessage>, b: seq<StoredMessage>)
    ensures DecodeHistory(a + b) == DecodeHistory(a) + DecodeHistory(b)
    decreases |b|
  {
    if b == [] {
      assert a + b == a;
    } else {
      var last := b[|b| - 1];
      assert (a + b)[..|a + b| - 1] == a + b[..|b| - 1];
      DecodeConcat(a, b[..|b| - 1]);
    }
  }

  /** Exactly the records tagged `human` or `ai` survive: the history is never
      longer than the records, and as long exactly when every tag is known. */
  lemma {:induction false} DecodeLength(messages: seq<StoredMessage>)
    ensures |DecodeHistory(messages)| <= |messages|
    ensures |DecodeHistory(messages)| == |messages| <==>
      forall i :: 0 <= i < |messages| ==> IsKnownTag(messages[i].tag)
  {
    if messages != [] {
      var init := messages[..|messages| - 1];
      DecodeLength(init);
      if !IsKnownTag(messages[|messages| - 1].tag) {
        assert |DecodeHistory(messages)| < |messages|;
      } else {
        assert forall i :: 0 <= i < |init| ==> init[i] == messages[i];
      }
    }
  }

  /** When every tag is known, the i-th turn is the i-th record read back. */
  lemma {:induction false} DecodeAt(messages: seq<StoredMessage>, i: nat)
    requires forall j :: 0 <= j < |messages| ==> IsKnownTag(messages[j].tag)
    requires i < |messages|
    ensures |DecodeHistory(messages)| == |messages|
    ensures Some(DecodeHistory(messages)[i]) == TurnOf(messages[i])
  {
    DecodeLength(messages);
    var init := messages[..|messages| - 1];
    if i < |messages| - 1 {
      DecodeAt(init, i);
    }
  }

  /** Writing a history out and reading it back gives the same history. */
  lemma {:induction false} HistoryRoundTrip(history: seq<Turn>)
    ensures DecodeHistory(EncodeHistory(history)) == history
  {
    if history != [] {
      var init := history[..|history| - 1];
      var encoded := EncodeHistory(history);
      assert encoded[..|encoded| - 1] == EncodeHistory(init);
      HistoryRoundTrip(init);
      var last := history[|history| - 1];
      assert TurnOf(Encoded(last)) == Some(last) by {
        match last.role
        case Human =>
        case AI =>
      }
    }
  }

  /** The preferences the store starts with: the stored map, or empty when the
      file is missing, undecodable, or has no `preferences` key. */
  function LoadedPreferences(file: Option<Document>): (prefs: PrefMap)
    ensures file.None? ==> prefs == []
    ensures file.Some? && file.value.preferences.None? ==> prefs == []
    ensures file.Some? && file.value.preferences.Some? ==> prefs == file.value.preferences.value
  {
    match file
    case None => []
    case Some(document) => document.preferences.GetOr([])
  }

  /** The history the store starts with, read back from the stored records. */
  function LoadedHistory(file: Option<Document>): (history: seq<Turn>)
    ensures file.None? ==> history == []
    ensures file.Some? && file.value.history.None? ==> history == []
    ensures file.Some? && file.value.history.Some? ==> history == DecodeHistory(file.value.history.value)
  {
    match file
    case None => []
    case Some(document) => DecodeHistory(document.history.GetOr([]))
  }

  /** The payload `save` writes. */
  function SavedDocument(preferences: PrefMap, history: seq<Turn>): Document {
    Document(Some(preferences), Some(EncodeHistory(history)))
  }

  /** Saving and loading again restores the same preferences and the same history. */
  lemma SaveLoadRoundTrip(preferences: PrefMap, history: seq<Turn>)
    ensures LoadedPreferences(Some(SavedDocument(preferences, history))) == preferences
    ensures LoadedHistory(Some(SavedDocument(preferences, history))) == history
  {
    HistoryRoundTrip(history);
  }

  /** `PersistentMemory`: the preferences and chat history of one session. The
      file is outside the model: the constructor takes what decoding it gave
      (`None` for a missing file or a JSON decode error) and `Save` returns the
      payload instead of writing it. */
  class PersistentMemory {
    var preferences: PrefMap
    var chatHistory: seq<Turn>

    constructor (file: Option<Document>)
      ensures preferences == LoadedPreferences(file)
      ensures chatHistory == LoadedHistory(file)
    {
      var stored := match file
        case None => Document(None, None)
        case Some(document) => document;
      var history := HistoryFromMessages(stored.history.GetOr([]));
      preferences := stored.preferences.GetOr([]);
      chatHistory := history;
    }

    /** `save`: the payload holds exactly the current preferences and the
        serialised history. */
    method Save() returns (payload: Document)
      ensures payload == SavedDocument(preferences, chatHistory)
      ensures LoadedPreferences(Some(payload)) == preferences
      ensures LoadedHistory(Some(payload)) == chatHistory
    {
      var messages := MessagesFromHistory(chatHistory);
      payload := Document(Some(preferences), Some(messages));
      SaveLoadRoundTrip(preferences, chatHistory);
    }

    /** `reset`: clear both parts of the state, then save. */
    method Reset() returns (payload: Document)
      modifies this
      ensures preferences == [] && chatHistory == []
      ensures payload == Document(Some([]), Some([]))
    {
      preferences := [];
      chatHistory := [];
      payload := Save();
    }
  }
}
