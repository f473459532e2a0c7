/** The main page (main.js): its chat box, whose send button is disabled while a request is
    out, the filter tag groups of its search panel, and the font-size button.

    As on the chat page, `sendMessage` is split at its awaited `fetch` into
    `MainChat.SendMessage` and `MainChat.Settle`. */
module MainPage {
  import opened JsText
  import opened MessageLog
  import opened Buttons
  import FontSize

  /** The bot greeting `handleNewChat` puts in the chat area: its two paragraphs. */
  const Greeting := "안녕하세요!\n어떤 도움이 필요하신가요?"

  /** The module-level state of main.js's chat box and the part of the page it drives. */
  class MainChat {
    /** `sendBtn.disabled` */
    var sendDisabled: bool
    /** The requests whose `fetch` has not settled yet. */
    var pending: set<nat>
    /** The id of the next request's loading indicator. */
    var nextId: nat
    /** The children of `#chat-container`. */
    var log: seq<Entry>
    /** The value of `#message-input`. */
    var input: string
    /** `currentFontSizeIndex` */
    var fontSizeIndex: nat

    ghost predicate Valid()
      reads this
    {
      && RequestsValid(log, pending, nextId)
      && fontSizeIndex < |FontSize.Levels|
    }

    /** At most one request is in flight, and exactly while the send button is disabled. */
    ghost predicate SingleFlight()
      reads this
    {
      |pending| <= 1 && (sendDisabled <==> pending != {})
    }

    /** The page as loaded. */
    constructor ()
      ensures Valid() && SingleFlight()
      ensures !sendDisabled && pending == {} && nextId == 0 && log == [] && input == ""
      ensures fontSizeIndex == 0
    {
      sendDisabled, pending, nextId, log, input, fontSizeIndex := false, {}, 0, [], "", 0;
    }

    /** What the synchronous part of `sendMessage` does when the input holds `text`. */
    twostate predicate SendEffect(text: string)
      reads this
    {
      if Trim(text) == "" then Ignored(text) else Started(Trim(text))
    }

    /** A blank input: nothing but the input (now `text`) differs. */
    twostate predicate Ignored(text: string)
      reads this
    {
      && input == text && log == old(log) && sendDisabled == old(sendDisabled)
      && pending == old(pending) && nextId == old(nextId) && fontSizeIndex == old(fontSizeIndex)
    }

    /** Request `old(nextId)` started with the trimmed `message`: the button is disabled,
        the user's message and a loading indicator are appended and the input is cleared. */
    twostate predicate Started(message: string)
      reads this
    {
      && log == old(log) + [Message(message, UserSender), Loading(old(nextId))]
      && input == "" && sendDisabled
      && pending == old(pending) + {old(nextId)} && nextId == old(nextId) + 1
      && fontSizeIndex == old(fontSizeIndex)
    }

    /** `sendMessage` up to its awaited `fetch`. A blank input (after `trim()`) does nothing;
        otherwise the send button is disabled, the user's message and a loading indicator
        are shown, the input is cleared and the request is issued. It does not look at
        `sendBtn.disabled`. */
    method SendMessage()
      requires Valid()
      modifies this
      ensures Valid()
      ensures SendEffect(old(input))
    {
      var message := Trim(input);
      if message == "" {
        return;
      }
      var id := nextId;
      StartKeepsRequestsValid(log, pending, id, message);
      sendDisabled := true;
      log, input := log + [Message(message, UserSender), Loading(id)], "";
      pending, nextId := pending + {id}, id + 1;
    }

    /** The rest of `sendMessage` when request `id` settles: the loading indicator goes and
        the answer is shown, or the error notice for a status that is not OK and for every
        other error; `finally` enables the button again, whichever request was current. */
    method Settle(id: nat, reply: Reply)
      requires Valid() && id in pending
      modifies this
      ensures Valid()
      ensures log == RemoveLoading(old(log), id)
                     + [Message(if reply.Answer? then reply.answer else ErrorNotice, BotSender)]
      ensures !sendDisabled && pending == old(pending) - {id}
      ensures nextId == old(nextId) && input == old(input) && fontSizeIndex == old(fontSizeIndex)
      ensures old(SingleFlight()) ==> SingleFlight()
    {
      var text := if reply.Answer? then reply.answer else ErrorNotice;
      SettleKeepsRequestsValid(log, pending, nextId, id, text);
      log := RemoveLoading(log, id) + [Message(text, BotSender)];
      pending := pending - {id};
      sendDisabled := false;
      if old(SingleFlight()) {
        assert |old(pending) - {id}| == |old(pending)| - 1;
      }
    }

    /** A click on the send button: a disabled button ignores it, so on this path a new
        request never starts while one is out. */
    method ClickSendButton()
      requires Valid()
      modifies this
      ensures Valid()
      ensures old(sendDisabled) ==> unchanged(this)
      ensures !old(sendDisabled) ==> SendEffect(old(input))
      ensures old(SingleFlight()) ==> SingleFlight()
    {
      if !sendDisabled {
        SendMessage();
      }
    }

    /** The message input's keydown handler: Enter without Shift calls `sendMessage`
        directly, also while the button is disabled and during an IME composition. */
    method KeyDown(key: string, shift: bool)
      requires Valid()
      modifies this
      ensures Valid()
      ensures key == "Enter" && !shift ==> SendEffect(old(input))
      ensures !(key == "Enter" && !shift) ==> unchanged(this)
    {
      if key == "Enter" && !shift {
        SendMessage();
      }
    }

    /** `handleNewChat`: after the user confirms, the chat area holds only the greeting.
        This also removes the loading indicator of a request still out; the button's
        state and the requests are left alone. */
    method HandleNewChat(confirmed: bool)
      requires Valid()
      modifies this`log
      ensures Valid()
      ensures confirmed ==> log == [Message(Greeting, BotSender)]
      ensures !confirmed ==> log == old(log)
    {
      if confirmed {
        log := [Message(Greeting, BotSender)];
      }
    }

    /** `handleFontSize`: the next of the three font sizes. */
    method HandleFontSize()
      requires Valid()
      modifies this`fontSizeIndex
      ensures Valid()
      ensures fontSizeIndex == FontSize.Next(old(fontSizeIndex))
    {
      fontSizeIndex := FontSize.Next(fontSizeIndex);
    }
  }

  /** Pressing Enter while a request is out starts a second one although the button is
      disabled; when the first settles the button is enabled while the second is still out. */
  method EnterKeyWhileDisabled() returns (inFlight: nat, enabledAfterFirst: bool, stillPending: nat)
    ensures inFlight == 2 && enabledAfterFirst && stillPending == 1
  {
    var page := new MainChat();
    page.input := "a";
    TrimUnpadded("a");
    page.ClickSendButton();
    assert page.pending == {0};
    page.input := "b";
    TrimUnpadded("b");
    page.KeyDown("Enter", false);
    inFlight := |page.pending|;
    page.Settle(0, Answer("x"));
    enabledAfterFirst := !page.sendDisabled;
    assert page.pending == {1};
    stillPending := |page.pending|;
  }

  /** A new chat started while a request is out: the user's message goes with the old
      chat, but the answer still arrives, right after the greeting, and enables the button. */
  method NewChatWhileSending() returns (shown: seq<Entry>, enabled: bool)
    ensures shown == [Message(Greeting, BotSender), Message("x", BotSender)] && enabled
  {
    var page := new MainChat();
    page.input := "a";
    TrimUnpadded("a");
    page.ClickSendButton();
    assert page.pending == {0};
    page.HandleNewChat(true);
    RemoveLoadingSpec(page.log, 0);
    page.Settle(0, Answer("x"));
    shown, enabled := page.log, !page.sendDisabled;
  }

  // ---- filter tag groups ----

  /** Whether a button's caption, trimmed, is '제한없음'. */
  predicate IsNoLimit(caption: string) {
    Trim(caption) == NoLimit
  }

  /** The index of the first '제한없음' button of a group, or the group's size when it has
      none: `Array.from(...).find(...)`. */
  function FirstNoLimit(labels: seq<string>): (f: nat)
    ensures f <= |labels|
    ensures f < |labels| ==> IsNoLimit(labels[f])
    ensures forall j :: 0 <= j < f ==> !IsNoLimit(labels[j])
  {
    if labels == [] then 0
    else if IsNoLimit(labels[0]) then 0
    else 1 + FirstNoLimit(labels[1..])
  }

  /** The flags of a group after a click on button `k`. '제한없음' becomes the only active
      button. Any other button clears the first '제한없음' and toggles itself; if no button
      is then active, that '제한없음' is activated again. */
  function TagClick(labels: seq<string>, flags: seq<bool>, k: nat): seq<bool>
    requires |flags| == |labels| && k < |labels|
  {
    if IsNoLimit(labels[k]) then OneHot(|labels|, k)
    else
      var f := FirstNoLimit(labels);
      var cleared := if f < |labels| then flags[f := false] else flags;
      var toggled := cleared[k := !cleared[k]];
      if CountTrue(toggled) == 0 && f < |labels| then toggled[f := true] else toggled
  }

  /** `resetFilters` on one group: exactly the '제한없음' buttons are active. */
  function ResetFlags(labels: seq<string>): (r: seq<bool>)
    ensures |r| == |labels|
    ensures forall i :: 0 <= i < |labels| ==> (r[i] <==> IsNoLimit(labels[i]))
  {
    seq(|labels|, i requires 0 <= i < |labels| => IsNoLimit(labels[i]))
  }

  /** A group has at most one '제한없음' button. */
  predicate OneNoLimit(labels: seq<string>) {
    forall i, j :: 0 <= i < j < |labels| && IsNoLimit(labels[i]) ==> !IsNoLimit(labels[j])
  }

  /** An active '제한없음' button is the only active button of its group. */
  predicate NoLimitExclusive(labels: seq<string>, flags: seq<bool>)
    requires |flags| == |labels|
  {
    forall i, j :: 0 <= i < |labels| && 0 <= j < |labels| && i != j && flags[i] && IsNoLimit(labels[i])
      ==> !flags[j]
  }

  /** Clicking '제한없음' activates it alone. */
  lemma ClickNoLimit(labels: seq<string>, flags: seq<bool>, k: nat)
    requires |flags| == |labels| && k < |labels| && IsNoLimit(labels[k])
    ensures var r := TagClick(labels, flags, k);
      r[k] && forall j :: 0 <= j < |labels| && j != k ==> !r[j]
  {
  }

  /** Clicking any other button toggles it and leaves every button other than the first
      '제한없음' as it was; that '제한없음' ends up active exactly when nothing else is. */
  lemma ClickOrdinary(labels: seq<string>, flags: seq<bool>, k: nat)
    requires |flags| == |labels| && k < |labels| && !IsNoLimit(labels[k])
    ensures var r := TagClick(labels, flags, k);
      var f := FirstNoLimit(labels);
      && r[k] == !flags[k]
      && (forall j :: 0 <= j < |labels| && j != k && j != f ==> r[j] == flags[j])
      && (f < |labels| ==> (r[f] <==> forall j :: 0 <= j < |labels| && j != f ==> !r[j]))
  {
    var f := FirstNoLimit(labels);
    var cleared := if f < |labels| then flags[f := false] else flags;
    var toggled := cleared[k := !cleared[k]];
    CountTrueZeroIff(toggled);
  }

  /** A group with a '제한없음' button never ends a click with no button active. */
  lemma ClickNeverEmpty(labels: seq<string>, flags: seq<bool>, k: nat)
    requires |flags| == |labels| && k < |labels| && FirstNoLimit(labels) < |labels|
    ensures exists j :: 0 <= j < |labels| && TagClick(labels, flags, k)[j]
  {
    var r := TagClick(labels, flags, k);
    if !IsNoLimit(labels[k]) {
      ClickOrdinary(labels, flags, k);
      var f := FirstNoLimit(labels);
      if !r[f] {
        var j :| 0 <= j < |labels| && j != f && r[j];
      }
    } else {
      assert r[k];
    }
  }

  /** In a group with one '제한없음' button, reset and every click keep it exclusive: the
      group shows either '제한없음' alone or a choice of specific tags. */
  lemma ResetExclusive(labels: seq<string>)
    requires OneNoLimit(labels)
    ensures NoLimitExclusive(labels, ResetFlags(labels))
  {
    var r := ResetFlags(labels);
    forall i, j | 0 <= i < |labels| && 0 <= j < |labels| && i != j && r[i] && IsNoLimit(labels[i])
      ensures !r[j]
    {
      if i < j {
        assert !IsNoLimit(labels[j]);
      } else {
        assert !IsNoLimit(labels[i]) || !IsNoLimit(labels[j]);
      }
    }
  }

  lemma ClickKeepsExclusive(labels: seq<string>, flags: seq<bool>, k: nat)
    requires |flags| == |labels| && k < |labels| && OneNoLimit(labels)
    ensures NoLimitExclusive(labels, TagClick(labels, flags, k))
  {
    var r := TagClick(labels, flags, k);
    if !IsNoLimit(labels[k]) {
      ClickOrdinary(labels, flags, k);
      var f := FirstNoLimit(labels);
      forall i | 0 <= i < |labels| && i != f ensures !IsNoLimit(labels[i]) {
        if i > f {
          assert f < |labels| && IsNoLimit(labels[f]);
        }
      }
    }
  }

  /** One `.filter-tags` group: the captions of its `.tag-btn` buttons and their `active`
      classes, in document order. */
  class TagGroup {
    const labels: seq<string>
    const active: array<bool>

    ghost predicate Valid()
      reads this
    {
      active.Length == |labels|
    }

    /** A group as rendered, with the `active` classes the page's markup gives it. */
    constructor (labels: seq<string>, flags: seq<bool>)
      requires |flags| == |labels|
      ensures Valid() && this.labels == labels && active[..] == flags && fresh(active)
    {
      this.labels := labels;
      active := new bool[|labels|](i requires 0 <= i < |labels| reads {} => flags[i]);
    }

    /** The click handler of the group's button `k`. */
    method Click(k: nat)
      requires Valid() && k < |labels|
      modifies active
      ensures active[..] == TagClick(labels, old(active[..]), k)
    {
      if IsNoLimit(labels[k]) {
        var i := 0;
        while i < active.Length
          invariant 0 <= i <= active.Length
          invariant forall j :: 0 <= j < i ==> !active[j]
        {
          active[i] := false;
          i := i + 1;
        }
        active[k] := true;
      } else {
        var f := FirstNoLimit(labels);
        if f < active.Length {
          active[f] := false;
        }
        active[k] := !active[k];
        var count := CountTrue(active[..]);
        if count == 0 && f < active.Length {
          active[f] := true;
        }
      }
    }

    /** `resetFilters` on this group: exactly its '제한없음' buttons become active. */
    method Reset()
      requires Valid()
      modifies active
      ensures active[..] == ResetFlags(labels)
    {
      var i := 0;
      while i < active.Length
        invariant 0 <= i <= active.Length
        invariant forall j :: 0 <= j < i ==> active[j] == IsNoLimit(labels[j])
      {
        active[i] := IsNoLimit(labels[i]);
        i := i + 1;
      }
    }
  }

  /** The tag part of `resetFilters`: every group of the panel is reset. */
  method ResetFilters(groups: seq<TagGroup>)
    requires forall g :: g in groups ==> g.Valid()
    requires forall a, b :: 0 <= a < b < |groups| ==> groups[a].active != groups[b].active
    modifies set g | g in groups :: g.active
    ensures forall a :: 0 <= a < |groups| ==> groups[a].active[..] == ResetFlags(groups[a].labels)
  {
    var i := 0;
    while i < |groups|
      invariant 0 <= i <= |groups|
      invariant forall a :: 0 <= a < i ==> groups[a].active[..] == ResetFlags(groups[a].labels)
    {
      groups[i].Reset();
      i := i + 1;
    }
  }
}
