/** The "Ask Me" chat page: sending a message, retrying a failed exchange and loading a saved
    conversation, together with the browser storage the page shares with its sidebar. Each handler
    is one atomic step; the chat action's answer is an input of the step. */
module AskMe {

  import opened Wrappers
  import opened Text
  import Chat

  datatype Role = User | Model

  /** One bubble of the conversation; `image` is a data URL. */
  datatype Message = Message(role: Role, text: string, image: Option<string>, isError: bool)

  /** An entry of the saved chat list. */
  datatype HistoryItem = HistoryItem(id: string, title: string, date: int)

  /** The `chat_history` storage key: missing, holding text that does not parse, or a list. */
  datatype SavedHistory = Absent | Unreadable | Saved(items: seq<HistoryItem>)

  /** What the page hears back from the chat action: its result, or a rejected call. */
  datatype Response = Answered(result: Chat.ChatResult) | NetworkFailure

  /** The request the page hands to the chat action. */
  datatype Outgoing = Outgoing(message: string, mode: string, image: Option<string>)

  /** The browser's local storage as the chat feature uses it: the chat list and the messages of
      each chat by id. */
  class BrowserStorage {
    var history: SavedHistory
    var chats: map<string, seq<Message>>

    constructor (history: SavedHistory, chats: map<string, seq<Message>>)
      ensures this.history == history && this.chats == chats
    {
      this.history, this.chats := history, chats;
    }
  }

  const ImageOnlyText: string := "[Mengirim Gambar]"
  const ErrorPrefix: string := "Maaf, terjadi kesalahan: "
  const NotUnderstood: string := "Maaf, saya tidak mengerti."
  const NetworkError: string := "Maaf, terjadi kesalahan jaringan."
  const TitleLength: nat := 30

  /** The send gate: nothing happens while a reply is pending, or when there is neither text
      (after trimming) nor an image. */
  function CanSend(input: string, image: Option<string>, loading: bool): (b: bool)
    ensures b <==> !loading && (Trim(input) != [] || Chat.Present(image))
  {
    BlankIffTrimsToEmpty(input);
    !((IsBlank(input) && !Chat.Present(image)) || loading)
  }

  /** The message a send appends: the trimmed text, or a placeholder when only an image goes. */
  function UserMessage(input: string, image: Option<string>): (r: Message)
    ensures r.role == User && !r.isError
    ensures !IsBlank(input) ==> r.text == Trim(input)
    ensures IsBlank(input) && Chat.Present(image) ==> r.text == ImageOnlyText
    ensures CanSend(input, image, false) ==> r.text != []
    ensures r.image.Some? <==> Chat.Present(image)
    ensures r.image.Some? ==> r.image == image
  {
    BlankIffTrimsToEmpty(input);
    var text := Trim(input);
    Message(User,
            if text != [] then text else if Chat.Present(image) then ImageOnlyText else [],
            if Chat.Present(image) then image else None,
            false)
  }

  /** The title of a new chat: the first 30 characters of the message, marked with "..." when
      cut, or "Gambar" for an image-only message. */
  function ChatTitle(message: string): (r: string)
    ensures r != [] && |r| <= TitleLength + 3
    ensures message == [] ==> r == "Gambar"
    ensures 0 < |message| <= TitleLength ==> r == message
    ensures |message| > TitleLength ==> r == message[..TitleLength] + "..."
  {
    var shown := (if |message| <= TitleLength then message else message[..TitleLength])
      + (if |message| > TitleLength then "..." else "");
    if shown == [] then "Gambar" else shown
  }

  /** The model's bubble for a response: an error bubble for a failure or a rejected call,
      otherwise the reply text, with a fallback when it is empty. */
  function ReplyMessage(response: Response): (r: Message)
    ensures r.role == Model && r.image.None? && r.text != []
    ensures r.isError <==> !(response.Answered? && response.result.Reply?)
  {
    match response
    case NetworkFailure => Message(Model, NetworkError, None, true)
    case Answered(Failure(e)) => Message(Model, ErrorPrefix + Chat.ErrorText(e), None, true)
    case Answered(Reply(text, _)) => Message(Model, if text == [] then NotUnderstood else text, None, false)
  }

  /** The bubble's text: the network-error notice, the error prefix before the action's error
      text, or the reply itself with a fallback notice for an empty reply. */
  lemma ReplyText(response: Response)
    ensures response == NetworkFailure ==> ReplyMessage(response).text == NetworkError
    ensures response.Answered? && response.result.Failure? ==>
      ReplyMessage(response).text == ErrorPrefix + Chat.ErrorText(response.result.error)
    ensures response.Answered? && response.result.Reply? ==>
      ReplyMessage(response).text == if response.result.text == [] then NotUnderstood else response.result.text
  {
  }

  /** The quota badge after a response: only a reply carries a new one. */
  function UsageAfter(usage: Chat.Quota, response: Response): (r: Chat.Quota)
    ensures response.Answered? && response.result.Reply? ==> r == response.result.usage
    ensures !(response.Answered? && response.result.Reply?) ==> r == usage
  {
    if response.Answered? && response.result.Reply? then response.result.usage else usage
  }

  /** Which message a retry resends and where the conversation is cut. */
  datatype Retry = Retry(cut: nat, target: Message)

  /** Retrying a user message resends it; retrying a model message resends the user message just
      before it; anything else is not retried. */
  function RetryTarget(messages: seq<Message>, idx: nat): (r: Option<Retry>)
    requires idx < |messages|
    ensures r.Some? ==> r.value.cut <= idx && messages[r.value.cut] == r.value.target
    ensures r.Some? ==> r.value.target.role == User
    ensures messages[idx].role == User ==> r == Some(Retry(idx, messages[idx]))
    ensures messages[idx].role == Model ==>
      (r.Some? <==> idx > 0 && messages[idx - 1].role == User)
    ensures messages[idx].role == Model && r.Some? ==> r.value.cut == idx - 1
  {
    if messages[idx].role == User then Some(Retry(idx, messages[idx]))
    else if idx > 0 && messages[idx - 1].role == User then Some(Retry(idx - 1, messages[idx - 1]))
    else None
  }

  /** A retried exchange replaces the tail from the resent message on: everything before it, and
      the resent message itself, stay where they were, and one reply follows. */
  lemma RetryKeepsPrefix(messages: seq<Message>, idx: nat, response: Response)
    requires idx < |messages| && RetryTarget(messages, idx).Some?
    ensures var t := RetryTarget(messages, idx).value;
      var after := messages[..t.cut] + [t.target, ReplyMessage(response)];
      && |after| == t.cut + 2 <= idx + 2
      && after[..t.cut + 1] == messages[..t.cut + 1]
      && after[t.cut + 1].role == Model
  {
    var t := RetryTarget(messages, idx).value;
    var after := messages[..t.cut] + [t.target, ReplyMessage(response)];
    assert after[..t.cut + 1] == messages[..t.cut] + [t.target];
    assert messages[..t.cut + 1] == messages[..t.cut] + [messages[t.cut]];
  }

  /** A send into a new chat stops at reading the chat list when that list does not parse. */
  predicate Stuck(saved: SavedHistory, chatId: Option<string>) {
    chatId.None? && saved.Unreadable?
  }

  /** The chat list after a send: a new chat is filed at the head, titled after its first
      message; an open chat, or a list that does not parse, leaves it as it was. */
  function FiledHistory(saved: SavedHistory, chatId: Option<string>, id: string, message: string, now: int)
    : (r: SavedHistory)
    ensures chatId.Some? || saved.Unreadable? ==> r == saved
    ensures chatId.None? && saved.Absent? ==> r == Saved([HistoryItem(id, ChatTitle(message), now)])
    ensures chatId.None? && saved.Saved? ==>
      r.Saved? && |r.items| == |saved.items| + 1 && r.items[0] == HistoryItem(id, ChatTitle(message), now) && r.items[1..] == saved.items
  {
    if chatId.Some? then saved
    else match saved
      case Unreadable => saved
      case Absent => Saved([HistoryItem(id, ChatTitle(message), now)])
      case Saved(items) => Saved([HistoryItem(id, ChatTitle(message), now)] + items)
  }

  /** What is stored for the chat once the reply settles: the conversation with the reply, or,
      after a rejected call, only what was saved before the call. */
  function SavedAfter(sentMessages: seq<Message>, response: Response): (r: seq<Message>)
    ensures response.Answered? ==> r == sentMessages + [ReplyMessage(response)]
    ensures response == NetworkFailure ==> r == sentMessages
  {
    if response.Answered? then sentMessages + [ReplyMessage(response)] else sentMessages
  }

  /** What the page shows and holds, apart from the selected mode. */
  datatype PageView = PageView(
    input: string, image: Option<string>, messages: seq<Message>, loading: bool,
    chatId: Option<string>, usage: Chat.Quota, showPrompts: bool)

  /** The page, the storage and the request after one send. */
  datatype SendOutcome = SendOutcome(
    view: PageView, history: SavedHistory, chats: map<string, seq<Message>>, sent: Option<Outgoing>)

  /** `handleSend`, from the gate to the settled reply. A first message opens a chat whose id is
      the send time and files it at the head of the chat list; the conversation is saved before
      and after the reply, except after a rejected call. When the chat list cannot be parsed the
      handler stops midway: the message shows, the page stays loading and nothing is sent. */
  function Send(v: PageView, mode: string, history: SavedHistory, chats: map<string, seq<Message>>,
                now: nat, response: Response): (r: SendOutcome)
    ensures !CanSend(v.input, v.image, v.loading) ==> r == SendOutcome(v, history, chats, None)
    ensures CanSend(v.input, v.image, v.loading) ==>
      var user := UserMessage(v.input, v.image);
      var id := if v.chatId.Some? then v.chatId.value else NatToString(now);
      && r.view.input == [] && r.view.image.None? && !r.view.showPrompts
      && r.view.chatId == Some(id) && (v.chatId.None? ==> id != [])
      && r.history == FiledHistory(history, v.chatId, id, Trim(v.input), now)
      && (Stuck(history, v.chatId) ==>
            && r.sent.None? && r.view.messages == v.messages + [user] && r.view.loading
            && r.view.usage == v.usage && r.chats == chats)
      && (!Stuck(history, v.chatId) ==>
            && r.sent == Some(Outgoing(Trim(v.input), mode, user.image))
            && r.view.messages == v.messages + [user, ReplyMessage(response)]
            && !r.view.loading
            && r.view.usage == UsageAfter(v.usage, response)
            && r.chats == chats[id := SavedAfter(v.messages + [user], response)])
  {
    if !CanSend(v.input, v.image, v.loading) then SendOutcome(v, history, chats, None)
    else
      var text := Trim(v.input);
      var user := UserMessage(v.input, v.image);
      var id := if v.chatId.Some? then v.chatId.value else NatToString(now);
      var filed := FiledHistory(history, v.chatId, id, text, now);
      if Stuck(history, v.chatId) then
        SendOutcome(PageView([], None, v.messages + [user], true, Some(id), v.usage, false), filed, chats, None)
      else
        SendOutcome(
          PageView([], None, v.messages + [user, ReplyMessage(response)], false, Some(id),
                   UsageAfter(v.usage, response), false),
          filed, chats[id := SavedAfter(v.messages + [user], response)],
          Some(Outgoing(text, mode, user.image)))
  }

  /** The request a retry makes for the message it resends. */
  function Resend(t: Retry, mode: string): (r: Outgoing)
    ensures r.message == t.target.text && r.image == t.target.image && r.mode == mode
  {
    Outgoing(t.target.text, mode, t.target.image)
  }

  /** What a completed send stores under the chat is what the page shows, except that a rejected
      call's error bubble is shown but not stored; so reopening the chat restores the
      conversation up to its last stored reply. */
  lemma SavedMatchesShown(v: PageView, mode: string, history: SavedHistory,
                          chats: map<string, seq<Message>>, now: nat, response: Response)
    requires CanSend(v.input, v.image, v.loading) && !Stuck(history, v.chatId)
    ensures var r := Send(v, mode, history, chats, now, response);
      && r.view.chatId.Some? && r.view.chatId.value in r.chats
      && var stored := r.chats[r.view.chatId.value];
      && (response.Answered? ==> stored == r.view.messages)
      && (response == NetworkFailure ==>
            stored == r.view.messages[..|r.view.messages| - 1] && r.view.messages[|stored|].isError)
  {
    var r := Send(v, mode, history, chats, now, response);
    var user := UserMessage(v.input, v.image);
    assert r.view.messages == v.messages + [user] + [ReplyMessage(response)];
  }

  /** Retrying the reply of a completed send resends the message just sent. The request is the
      same when the message had text; for an image-only message the first request carried no
      text but the retry carries the placeholder shown in the bubble. */
  lemma RetryAfterSend(v: PageView, mode: string, history: SavedHistory,
                       chats: map<string, seq<Message>>, now: nat, response: Response)
    requires CanSend(v.input, v.image, v.loading) && !Stuck(history, v.chatId)
    ensures var r := Send(v, mode, history, chats, now, response);
      var ms := r.view.messages;
      var t := Retry(|v.messages|, UserMessage(v.input, v.image));
      && |ms| == |v.messages| + 2
      && RetryTarget(ms, |ms| - 1) == Some(t)
      && (!IsBlank(v.input) ==> r.sent == Some(Resend(t, mode)))
      && (IsBlank(v.input) ==>
            && r.sent == Some(Outgoing([], mode, v.image))
            && Resend(t, mode) == Outgoing(ImageOnlyText, mode, v.image))
  {
    BlankIffTrimsToEmpty(v.input);
    var r := Send(v, mode, history, chats, now, response);
    var ms := r.view.messages;
    var user := UserMessage(v.input, v.image);
    assert ms == v.messages + [user, ReplyMessage(response)];
    assert ms[|ms| - 1].role == Model && ms[|ms| - 2] == user;
  }

  /** The chat page's state, with the storage it reads and writes. */
  class AskMePage {
    var selectedMode: string
    var input: string
    var messages: seq<Message>
    var isLoading: bool
    var chatId: Option<string>
    var usage: Chat.Quota
    var selectedImage: Option<string>
    var showPrompts: bool
    const storage: BrowserStorage

    /** A chat id, once set, is a non-empty string. */
    predicate Valid()
      reads this
    {
      chatId.Some? ==> chatId.value != []
    }

    constructor (storage: BrowserStorage)
      ensures Valid() && this.storage == storage
      ensures selectedMode == "solution-architect" && input == [] && messages == []
      ensures !isLoading && chatId.None? && usage == Chat.Quota(0, 5)
      ensures selectedImage.None? && !showPrompts
    {
      this.storage := storage;
      selectedMode, input, messages := "solution-architect", [], [];
      isLoading, chatId, usage := false, None, Chat.Quota(0, 5);
      selectedImage, showPrompts := None, false;
    }

    method SelectMode(mode: string)
      modifies this
      ensures selectedMode == mode
      ensures input == old(input) && messages == old(messages) && chatId == old(chatId)
      ensures isLoading == old(isLoading) && usage == old(usage)
      ensures selectedImage == old(selectedImage) && showPrompts == old(showPrompts)
    {
      selectedMode := mode;
    }

    method SetInput(text: string)
      modifies this
      ensures input == text
      ensures selectedMode == old(selectedMode) && messages == old(messages) && chatId == old(chatId)
      ensures isLoading == old(isLoading) && usage == old(usage)
      ensures selectedImage == old(selectedImage) && showPrompts == old(showPrompts)
    {
      input := text;
    }

    /** The file reader's `onloadend` after an image was picked: its data URL becomes the
        attached image. */
    method SelectImage(dataUrl: string)
      modifies this
      ensures selectedImage == Some(dataUrl)
      ensures selectedMode == old(selectedMode) && input == old(input) && messages == old(messages)
      ensures chatId == old(chatId) && isLoading == old(isLoading) && usage == old(usage)
      ensures showPrompts == old(showPrompts)
    {
      selectedImage := Some(dataUrl);
    }

    /** The remove button on the image preview. */
    method RemoveImage()
      modifies this
      ensures selectedImage == None
      ensures selectedMode == old(selectedMode) && input == old(input) && messages == old(messages)
      ensures chatId == old(chatId) && isLoading == old(isLoading) && usage == old(usage)
      ensures showPrompts == old(showPrompts)
    {
      selectedImage := None;
    }

    /** A speech-recognition result: the transcript is appended to the composer, after a space
        when the composer already holds text. */
    method AppendTranscript(transcript: string)
      modifies this
      ensures old(input) == [] ==> input == transcript
      ensures old(input) != [] ==> input == old(input) + " " + transcript
      ensures selectedMode == old(selectedMode) && messages == old(messages) && chatId == old(chatId)
      ensures isLoading == old(isLoading) && usage == old(usage)
      ensures selectedImage == old(selectedImage) && showPrompts == old(showPrompts)
    {
      input := input + (if input != [] then " " else "") + transcript;
    }

    /** The prompts button opens or closes the starter prompts. */
    method TogglePrompts()
      modifies this
      ensures showPrompts == !old(showPrompts)
      ensures selectedMode == old(selectedMode) && input == old(input) && messages == old(messages)
      ensures chatId == old(chatId) && isLoading == old(isLoading) && usage == old(usage)
      ensures selectedImage == old(selectedImage)
    {
      showPrompts := !showPrompts;
    }

    /** Picking a starter prompt puts it in the composer and closes the prompts. */
    method PickPrompt(prompt: string)
      modifies this
      ensures input == prompt && !showPrompts
      ensures selectedMode == old(selectedMode) && messages == old(messages) && chatId == old(chatId)
      ensures isLoading == old(isLoading) && usage == old(usage) && selectedImage == old(selectedImage)
    {
      input := prompt;
      showPrompts := false;
    }

    /** `loadChat`: no id (or an empty one) starts a new chat; an id with saved messages opens
        them; an id with nothing saved changes nothing. */
    method LoadChat(id: Option<string>)
      requires Valid()
      modifies this
      ensures Valid()
      ensures !Chat.Present(id) ==>
        chatId.None? && messages == [] && selectedImage.None? && input == []
      ensures Chat.Present(id) && id.value in storage.chats ==>
        chatId == id && messages == storage.chats[id.value]
        && selectedImage == old(selectedImage) && input == old(input)
      ensures Chat.Present(id) && id.value !in storage.chats ==>
        chatId == old(chatId) && messages == old(messages)
        && selectedImage == old(selectedImage) && input == old(input)
      ensures selectedMode == old(selectedMode) && isLoading == old(isLoading) && usage == old(usage)
      ensures showPrompts == old(showPrompts)
    {
      if !Chat.Present(id) {
        chatId, messages, selectedImage, input := None, [], None, [];
      } else if id.value in storage.chats {
        messages := storage.chats[id.value];
        chatId := id;
      }
    }

    function View(): PageView
      reads this
    {
      PageView(input, selectedImage, messages, isLoading, chatId, usage, showPrompts)
    }

    /** `handleSend` as one step. */
    method HandleSend(now: nat, response: Response) returns (sent: Option<Outgoing>)
      requires Valid()
      modifies this, storage
      ensures Valid()
      ensures var r := Send(old(View()), old(selectedMode), old(storage.history), old(storage.chats), now, response);
        View() == r.view && storage.history == r.history && storage.chats == r.chats && sent == r.sent
      ensures selectedMode == old(selectedMode)
    {
      var r := Send(View(), selectedMode, storage.history, storage.chats, now, response);
      input, selectedImage, messages, isLoading := r.view.input, r.view.image, r.view.messages, r.view.loading;
      chatId, usage, showPrompts := r.view.chatId, r.view.usage, r.view.showPrompts;
      storage.history, storage.chats := r.history, r.chats;
      sent := r.sent;
    }

    /** `handleRetry`: cuts the conversation back to the resent user message, puts its text (and
        image) back in the composer and appends the new reply. Storage, the chat id and the quota
        badge are left alone. */
    method HandleRetry(idx: nat, response: Response) returns (sent: Option<Outgoing>)
      requires idx < |messages|
      modifies this
      ensures match RetryTarget(old(messages), idx)
        case None =>
          && sent.None? && messages == old(messages) && input == old(input)
          && selectedImage == old(selectedImage) && isLoading == old(isLoading)
        case Some(t) =>
          && sent == Some(Resend(t, old(selectedMode)))
          && messages == old(messages)[..t.cut] + [t.target, ReplyMessage(response)]
          && input == t.target.text
          && selectedImage == (if t.target.image.Some? then t.target.image else old(selectedImage))
          && !isLoading
      ensures selectedMode == old(selectedMode) && chatId == old(chatId) && usage == old(usage)
      ensures showPrompts == old(showPrompts)
    {
      match RetryTarget(messages, idx)
      case None =>
        sent := None;
      case Some(t) =>
        var image := if t.target.image.Some? then t.target.image else selectedImage;
        sent := Some(Resend(t, selectedMode));
        messages, input, selectedImage, isLoading :=
          messages[..t.cut] + [t.target, ReplyMessage(response)], t.target.text, image, false;
    }
  }
}
