/** The chat page (chat.js): the send/stop state machine around the chat request, the
    conversation currently selected in the history sidebar, its title rule, and the
    font-size button.

    `sendMessage` is an `async` function with one suspension point, the awaited `fetch`.
    Its synchronous prefix is `ChatPage.SendMessage`; the continuation that runs when the
    request settles, with its `catch` and `finally`, is `ChatPage.Settle`. Between the two,
    other events (the stop button, the Enter key, a click in the sidebar) can run. */
module Chat {
  import opened Wrappers
  import opened Strings
  import opened JsText
  import opened MessageLog
  import FontSize

  /** The bot's notice after the user pressed stop. */
  const StoppedNotice := "응답 생성이 중지되었습니다."
  /** The sidebar title of a conversation that has none. */
  const UntitledTitle := "새 대화"
  const TitleLimit := 20

  /** How a request ends, as `sendMessage`'s `try`/`catch` tells the cases apart. */
  datatype Outcome = Ok(answer: string) | Aborted | Failed

  /** A request whose AbortController was aborted before it settled rejects with an
      `AbortError`, whatever the server did; otherwise a status that is not OK and every
      other error both end in the generic branch. */
  function Classify(signalled: bool, reply: Reply): (o: Outcome)
    ensures o.Aborted? <==> signalled
    ensures o.Ok? <==> !signalled && reply.Answer?
    ensures o.Ok? ==> o.answer == reply.answer
  {
    if signalled then Aborted
    else match reply
      case Answer(a) => Ok(a)
      case BadStatus => Failed
      case Broken => Failed
  }

  /** The one bot message a settled request leaves in the log. */
  function BotText(o: Outcome): (text: string)
    ensures o.Aborted? ==> text == StoppedNotice
    ensures o.Failed? ==> text == ErrorNotice
    ensures o.Ok? ==> text == o.answer
  {
    match o
    case Ok(a) => a
    case Aborted => StoppedNotice
    case Failed => ErrorNotice
  }

  /** `/chat/new/` as `handleNewChat` sees it: a response with an OK status carrying
      `conversation_id` (None when the field is absent), an OK-less response, or an error. */
  datatype NewChatReply = Created(conversationId: Option<string>) | NotCreated | NewChatThrew

  /** A stored message of `/chat/{id}/`: `{content, role}`. */
  datatype StoredMessage = StoredMessage(content: string, role: string)

  /** `/chat/{id}/` as `loadConversation` sees it. */
  datatype LoadReply = Loaded(messages: seq<StoredMessage>) | NotLoaded | LoadThrew

  /** `/chat/{id}/delete/` as `deleteChat` sees it: any response (both statuses are
      handled alike), or an error thrown by `fetch`. */
  datatype DeleteReply = Responded | DeleteThrew

  /** The title `renderChatList` shows for a conversation: titles longer than 20 characters
      are cut to 20 and marked with '...', a missing or empty title reads '새 대화'. */
  function HistoryTitle(title: Option<string>): (r: string)
    ensures r != "" && |r| <= TitleLimit + 3
    ensures title.Some? && |title.value| > TitleLimit ==>
      |r| == TitleLimit + 3 && IsPrefix(r[..TitleLimit], title.value) && r[TitleLimit..] == "..."
    ensures title.Some? && 0 < |title.value| <= TitleLimit ==> r == title.value
    ensures title.None? || title.value == "" ==> r == UntitledTitle
  {
    if title.Some? && |title.value| > TitleLimit then title.value[..TitleLimit] + "..."
    else if title.Some? && title.value != "" then title.value
    else UntitledTitle
  }

  /** The module-level state of chat.js and the part of the page it drives. */
  class ChatPage {
    /** `isSending` */
    var isSending: bool
    /** `currentAbortController`, named by the request it was created for. */
    var controller: Option<nat>
    /** The requests whose AbortController's `abort()` has been called. */
    var signalled: set<nat>
    /** The requests whose `fetch` has not settled yet. */
    var pending: set<nat>
    /** The id the next request gets: its controller and its loading indicator are new. */
    var nextId: nat
    /** The children of `#chat-container`. */
    var log: seq<Entry>
    /** The value of `#message-input`. */
    var input: string
    /** Whether the empty-chat placeholder is visible. */
    var placeholderShown: bool
    /** Whether the send button shows the stop icon (class `sending`). */
    var sendingIcon: bool
    /** `currentConversationId` */
    var conversationId: Option<string>
    /** `currentFontSizeIndex` */
    var fontSizeIndex: nat

    ghost predicate Valid()
      reads this
    {
      && (isSending <==> controller.Some?)
      && sendingIcon == isSending
      && (controller.Some? ==> controller.value in pending)
      && RequestsValid(log, pending, nextId)
      && (forall id :: id in signalled ==> id < nextId)
      && fontSizeIndex < |FontSize.Levels|
    }

    /** At most one request is in flight, and exactly while the page says it is sending. */
    ghost predicate SingleFlight()
      reads this
    {
      |pending| <= 1 && (isSending <==> pending != {})
    }

    /** The page as loaded: idle, no conversation selected, the first font size. */
    constructor ()
      ensures Valid() && SingleFlight()
      ensures !isSending && controller == None && pending == {} && signalled == {}
      ensures log == [] && input == "" && placeholderShown && conversationId == None
      ensures fontSizeIndex == 0 && nextId == 0
    {
      isSending, controller, signalled, pending, nextId := false, None, {}, {}, 0;
      log, input, placeholderShown, sendingIcon := [], "", true, false;
      conversationId, fontSizeIndex := None, 0;
    }

    /** What the synchronous part of `sendMessage` does when the input holds `text`. */
    twostate predicate SendEffect(text: string)
      reads this
    {
      if Trim(text) == "" then Ignored(text) else Started(Trim(text))
    }

    /** A blank input: nothing but the input (now `text`) differs. */
    twostate predicate Ignored(text: string)
      reads this
    {
      && input == text
      && log == old(log) && placeholderShown == old(placeholderShown)
      && isSending == old(isSending) && controller == old(controller)
      && sendingIcon == old(sendingIcon)
      && pending == old(pending) && signalled == old(signalled) && nextId == old(nextId)
      && conversationId == old(conversationId) && fontSizeIndex == old(fontSizeIndex)
    }

    /** Request `old(nextId)` started with the trimmed `message`: the user's message and
        the request's loading indicator are appended, the input is cleared, the placeholder
        hidden, and the page is sending with the request's controller current. */
    twostate predicate Started(message: string)
      reads this
    {
      && log == old(log) + [Message(message, UserSender), Loading(old(nextId))]
      && input == "" && !placeholderShown
      && isSending && controller == Some(old(nextId)) && sendingIcon
      && pending == old(pending) + {old(nextId)} && signalled == old(signalled)
      && nextId == old(nextId) + 1
      && conversationId == old(conversationId) && fontSizeIndex == old(fontSizeIndex)
    }

    /** `sendMessage` up to its awaited `fetch`. A blank input (after `trim()`) does nothing.
        Otherwise the placeholder goes, the page becomes sending with a new controller, the
        user's message and a loading indicator are appended, the input is cleared and the
        request is issued. It does not look at `isSending`. */
    method SendMessage()
      requires Valid()
      modifies this
      ensures Valid()
      ensures SendEffect(old(input))
    {
      var message := Trim(input);
      if message == "" {
        return;
      }
      var id := nextId;
      var added := [Message(message, UserSender), Loading(id)];
      StartKeepsRequestsValid(log, pending, id, message);
      placeholderShown, isSending, controller, sendingIcon := false, true, Some(id), true;
      log, input := log + added, "";
      pending, nextId := pending + {id}, id + 1;
    }

    /** `stopMessage`: aborts the current controller, if there is one. It clears neither
        `isSending` nor the controller; the settling request does that. */
    method StopMessage()
      requires Valid()
      modifies this`signalled
      ensures Valid()
      ensures signalled == if old(controller).Some? then old(signalled) + {old(controller).value}
                           else old(signalled)
    {
      if controller.Some? {
        signalled := signalled + {controller.value};
      }
    }

    /** `handleSendButton`: the same button stops while sending and sends otherwise, so on
        this path a new request never starts while one is current. */
    method HandleSendButton()
      requires Valid()
      modifies this
      ensures Valid()
      ensures old(isSending) ==>
        && signalled == old(signalled) + {old(controller).value}
        && log == old(log) && pending == old(pending) && isSending && controller == old(controller)
        && input == old(input) && nextId == old(nextId) && sendingIcon == old(sendingIcon)
        && placeholderShown == old(placeholderShown)
        && conversationId == old(conversationId) && fontSizeIndex == old(fontSizeIndex)
      ensures !old(isSending) ==> SendEffect(old(input))
      ensures old(SingleFlight()) ==> SingleFlight()
    {
      if isSending {
        StopMessage();
      } else {
        SendMessage();
      }
    }

    /** The rest of `sendMessage` when request `id` settles: the loading indicator goes, one
        bot message is appended (the answer, the stop notice or the error notice), and
        `finally` makes the page idle, whichever request was current. */
    method Settle(id: nat, reply: Reply)
      requires Valid() && id in pending
      modifies this
      ensures Valid()
      ensures log == RemoveLoading(old(log), id)
                     + [Message(BotText(Classify(id in old(signalled), reply)), BotSender)]
      ensures !isSending && controller == None && !sendingIcon
      ensures pending == old(pending) - {id}
      ensures signalled == old(signalled) && nextId == old(nextId) && input == old(input)
      ensures placeholderShown == old(placeholderShown)
      ensures conversationId == old(conversationId) && fontSizeIndex == old(fontSizeIndex)
      ensures old(SingleFlight()) ==> SingleFlight()
    {
      var outcome := Classify(id in signalled, reply);
      SettleKeepsRequestsValid(log, pending, nextId, id, BotText(outcome));
      log := RemoveLoading(log, id);
      log := log + [Message(BotText(outcome), BotSender)];
      pending := pending - {id};
      isSending := false;
      controller := None;
      sendingIcon := false;
      if old(SingleFlight()) {
        assert |old(pending) - {id}| == |old(pending)| - 1;
      }
    }

    /** The message input's keydown handler: Enter without Shift, outside an IME
        composition, calls `sendMessage` directly, whether or not a request is current. */
    method KeyDown(key: string, shift: bool, composing: bool)
      requires Valid()
      modifies this
      ensures Valid()
      ensures key == "Enter" && !shift && !composing ==> SendEffect(old(input))
      ensures !(key == "Enter" && !shift && !composing) ==> unchanged(this)
      ensures old(SingleFlight()) && !old(isSending) ==> SingleFlight()
    {
      if key == "Enter" && !shift && !composing {
        SendMessage();
      }
    }

    /** `setInputValue(text)` (a suggested question): fills the input and calls
        `sendMessage` directly. */
    method SetInputValue(text: string)
      requires Valid()
      modifies this
      ensures Valid()
      ensures SendEffect(text)
      ensures old(SingleFlight()) && !old(isSending) ==> SingleFlight()
    {
      input := text;
      SendMessage();
    }

    /** `sendMessage` run through the send/stop button from an idle page, with the request
        settling before anything else happens; `pressStop` says whether the button was
        pressed again (as the stop button) while the request was out. */
    method SendThroughButton(reply: Reply, pressStop: bool)
      requires Valid() && !isSending && Trim(input) != ""
      modifies this
      ensures Valid()
      ensures log == old(log) + [Message(Trim(old(input)), UserSender),
                                  Message(BotText(Classify(pressStop, reply)), BotSender)]
      ensures !isSending && controller == None && pending == old(pending)
      ensures input == "" && nextId == old(nextId) + 1 && !placeholderShown
      ensures conversationId == old(conversationId) && fontSizeIndex == old(fontSizeIndex)
    {
      var id := nextId;
      var user := Message(Trim(input), UserSender);
      HandleSendButton();
      assert log == old(log) + [user] + [Loading(id)];
      if pressStop {
        HandleSendButton();
      }
      assert (id in signalled) == pressStop;
      Settle(id, reply);
      assert Loading(id) !in old(log) + [user];
      RemoveLoadingBehind(old(log) + [user], [Loading(id)], id);
      assert RemoveLoading([Loading(id)], id) == [];
    }

    /** `handleNewChat`: after the user confirms, an OK response selects the new
        conversation (none when the id is missing or empty); whatever the response, the
        chat area is cleared and the placeholder shown. */
    method NewChat(confirmed: bool, reply: NewChatReply)
      requires Valid()
      modifies this`conversationId, this`log, this`placeholderShown
      ensures Valid()
      ensures !confirmed ==> unchanged(this)
      ensures confirmed ==> log == [] && placeholderShown
      ensures confirmed && reply.Created? ==>
        conversationId == if reply.conversationId.Some? && reply.conversationId.value != ""
                          then reply.conversationId else None
      ensures !(confirmed && reply.Created?) ==> conversationId == old(conversationId)
    {
      if confirmed {
        if reply.Created? {
          var created := reply.conversationId;
          conversationId := if created.Some? && created.value != "" then created else None;
        }
        ShowPlaceholder();
      }
    }

    /** `showChatPlaceholder`: the placeholder appears and the chat area is emptied. */
    method ShowPlaceholder()
      requires Valid()
      modifies this`log, this`placeholderShown
      ensures Valid() && log == [] && placeholderShown
    {
      placeholderShown := true;
      log := [];
    }

    /** `loadConversation(id)` up to its awaited `fetch`: the conversation is selected at
        once. */
    method SelectConversation(id: string)
      requires Valid()
      modifies this`conversationId
      ensures Valid()
      ensures conversationId == Some(id)
    {
      conversationId := Some(id);
    }

    /** The rest of `loadConversation` when its request settles: the messages of an OK
        response replace the chat area and the placeholder is hidden; otherwise nothing
        changes. The selection is not looked at, so the messages shown are those of this
        request even when another conversation was selected in the meantime. */
    method ShowConversation(reply: LoadReply)
      requires Valid()
      modifies this`log, this`placeholderShown
      ensures Valid()
      ensures reply.Loaded? ==>
        && |log| == |reply.messages| && !placeholderShown
        && forall i :: 0 <= i < |log| ==>
             log[i] == Message(reply.messages[i].content, reply.messages[i].role)
      ensures !reply.Loaded? ==> log == old(log) && placeholderShown == old(placeholderShown)
    {
      if reply.Loaded? {
        var shown: seq<Entry> := [];
        var i := 0;
        while i < |reply.messages|
          invariant 0 <= i <= |reply.messages|
          invariant |shown| == i
          invariant forall j :: 0 <= j < i ==>
            shown[j] == Message(reply.messages[j].content, reply.messages[j].role)
        {
          shown := shown + [Message(reply.messages[i].content, reply.messages[i].role)];
          i := i + 1;
        }
        log := shown;
        placeholderShown := false;
      }
    }

    /** `loadConversation(id)` with its request settling before anything else happens. */
    method LoadConversation(id: string, reply: LoadReply)
      requires Valid()
      modifies this`conversationId, this`log, this`placeholderShown
      ensures Valid()
      ensures conversationId == Some(id)
      ensures reply.Loaded? ==>
        && |log| == |reply.messages| && !placeholderShown
        && forall i :: 0 <= i < |log| ==>
             log[i] == Message(reply.messages[i].content, reply.messages[i].role)
      ensures !reply.Loaded? ==> log == old(log) && placeholderShown == old(placeholderShown)
    {
      SelectConversation(id);
      ShowConversation(reply);
    }

    /** `deleteChat(id)`: after the user confirms and the request returns (with any status),
        deleting the selected conversation deselects it and clears the chat area; deleting
        another one leaves the selection alone. */
    method DeleteChat(id: string, confirmed: bool, reply: DeleteReply)
      requires Valid()
      modifies this`conversationId, this`log, this`placeholderShown
      ensures Valid()
      ensures confirmed && reply.Responded? && old(conversationId) == Some(id) ==>
        conversationId == None && log == [] && placeholderShown
      ensures !(confirmed && reply.Responded? && old(conversationId) == Some(id)) ==>
        unchanged(this)
    {
      if !confirmed {
        return;
      }
      if reply.DeleteThrew? {
        return;
      }
      if conversationId == Some(id) {
        conversationId := None;
        ShowPlaceholder();
      }
    }

    /** `handleFontSize`: the next of the three font sizes. */
    method HandleFontSize()
      requires Valid()
      modifies this`fontSizeIndex
      ensures Valid()
      ensures fontSizeIndex == FontSize.Next(old(fontSizeIndex))
    {
      fontSizeIndex := FontSize.Next(fontSizeIndex);
    }
  }

  /** The worked example: '안녕' is sent, the page is sending while the request is out, and
      the answer '반가워요' makes the log exactly the two messages and the page idle. */
  method GreetingScenario() returns (during: bool, log: seq<Entry>, after: bool)
    ensures during && !after
    ensures log == [Message("안녕", UserSender), Message("반가워요", BotSender)]
  {
    var page := new ChatPage();
    page.input := "안녕";
    TrimUnpadded("안녕");
    page.SendMessage();
    during := page.isSending;
    assert page.pending == {0};
    page.Settle(0, Answer("반가워요"));
    assert RemoveLoading([Message("안녕", UserSender), Loading(0)], 0) == [Message("안녕", UserSender)];
    log := page.log;
    after := page.isSending;
  }

  /** The Enter key bypasses the send/stop button: pressed while a request is out it
      starts a second one, and when the first settles the page reads idle although the
      second is still in flight. */
  method EnterKeyWhileSending() returns (inFlight: nat, idleAfterFirst: bool, stillPending: nat)
    ensures inFlight == 2 && idleAfterFirst && stillPending == 1
  {
    var page := new ChatPage();
    page.input := "a";
    TrimUnpadded("a");
    page.HandleSendButton();
    assert page.pending == {0};
    page.input := "b";
    TrimUnpadded("b");
    page.KeyDown("Enter", false, false);
    inFlight := |page.pending|;
    page.Settle(0, Answer("x"));
    idleAfterFirst := !page.isSending;
    assert page.pending == {1};
    stillPending := |page.pending|;
  }

  /** Two conversations clicked in a row whose replies arrive in the other order: B stays
      selected while the area shows A's messages. */
  method LoadRace(a: string, b: string, fromA: StoredMessage, fromB: StoredMessage)
    returns (selected: Option<string>, shown: seq<Entry>)
    ensures selected == Some(b)
    ensures shown == [Message(fromA.content, fromA.role)]
  {
    var page := new ChatPage();
    page.SelectConversation(a);
    page.SelectConversation(b);
    page.ShowConversation(Loaded([fromB]));
    page.ShowConversation(Loaded([fromA]));
    selected := page.conversationId;
    shown := page.log;
  }

  /** Deleting a conversation while it is still loading: its messages appear afterwards
      with no conversation selected. */
  method DeleteWhileLoading(a: string, fromA: StoredMessage)
    returns (selected: Option<string>, shown: seq<Entry>)
    ensures selected == None
    ensures shown == [Message(fromA.content, fromA.role)]
  {
    var page := new ChatPage();
    page.SelectConversation(a);
    page.DeleteChat(a, true, Responded);
    page.ShowConversation(Loaded([fromA]));
    selected := page.conversationId;
    shown := page.log;
  }
}
