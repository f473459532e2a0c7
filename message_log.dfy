/** The chat area (`#chat-container`) as an append-only log of entries, shared by the two
    chat front ends (the chat page and the main page). */
module MessageLog {

  /** The bot's notice when a request fails for any reason other than the user's stop. */
  const ErrorNotice := "죄송합니다. 오류가 발생했습니다. 다시 시도해주세요."
  const UserSender := "user"
  const BotSender := "bot"

  /** A child of the chat area: a rendered message (`addMessage(text, sender)`), or the
      typing indicator that `addLoadingMessage` shows for one request. */
  datatype Entry = Message(text: string, sender: string) | Loading(id: nat)

  /** How `fetch('/chat/ask/')` and the `response.json()` after it settle when the request
      was not cancelled: an answer, a status that is not OK, or a transport error or
      malformed body. */
  datatype Reply = Answer(answer: string) | BadStatus | Broken

  /** The index of the first indicator of request `id`, or the length of the log when
      there is none. */
  function FirstLoading(log: seq<Entry>, id: nat): (k: nat)
    ensures k <= |log|
    ensures Loading(id) !in log[..k]
    ensures k < |log| ==> log[k] == Loading(id)
  {
    if log == [] then 0
    else if log[0] == Loading(id) then 0
    else
      var k := 1 + FirstLoading(log[1..], id);
      assert log[..k] == [log[0]] + log[1..][..k - 1];
      k
  }

  /** `removeLoadingMessage(id)`: `getElementById` finds the first element with that id,
      which is then removed; the log is unchanged when there is none. */
  function RemoveLoading(log: seq<Entry>, id: nat): seq<Entry> {
    var k := FirstLoading(log, id);
    if k < |log| then log[..k] + log[k + 1..] else log
  }

  /** Without an indicator of `id` the log is unchanged; with one, exactly its first
      occurrence is taken out. */
  lemma RemoveLoadingSpec(log: seq<Entry>, id: nat)
    ensures Loading(id) !in log ==> RemoveLoading(log, id) == log
    ensures Loading(id) in log ==>
      var k := FirstLoading(log, id);
      && k < |log| && log[k] == Loading(id) && Loading(id) !in log[..k]
      && RemoveLoading(log, id) == log[..k] + log[k + 1..]
      && |RemoveLoading(log, id)| == |log| - 1
  {
    var k := FirstLoading(log, id);
    if k == |log| {
      assert log[..k] == log;
    }
  }

  /** Removing an indicator that is not in the front part only touches the back part. */
  lemma {:induction false} RemoveLoadingBehind(front: seq<Entry>, back: seq<Entry>, id: nat)
    requires Loading(id) !in front
    ensures RemoveLoading(front + back, id) == front + RemoveLoading(back, id)
  {
    FirstLoadingBehind(front, back, id);
    var s := front + back;
    var k := FirstLoading(back, id);
    var at := |front| + k;
    if k < |back| {
      assert s[..at] == front + back[..k];
      assert s[at + 1..] == back[k + 1..];
      assert RemoveLoading(s, id) == s[..at] + s[at + 1..];
      assert RemoveLoading(back, id) == back[..k] + back[k + 1..];
    } else {
      assert RemoveLoading(s, id) == s;
    }
  }

  lemma {:induction false} FirstLoadingBehind(front: seq<Entry>, back: seq<Entry>, id: nat)
    requires Loading(id) !in front
    ensures FirstLoading(front + back, id) == |front| + FirstLoading(back, id)
  {
    if front == [] {
      assert front + back == back;
    } else {
      assert front[0] in front;
      assert (front + back)[0] == front[0];
      assert (front + back)[1..] == front[1..] + back;
      assert forall e :: e in front[1..] ==> e in front;
      FirstLoadingBehind(front[1..], back, id);
    }
  }

  /** The loading indicators in the log have pairwise different ids. */
  predicate LoadingIdsUnique(log: seq<Entry>) {
    forall i, j :: 0 <= i < j < |log| && log[i].Loading? && log[j].Loading? ==> log[i].id != log[j].id
  }

  /** The bookkeeping of requests: ids are handed out in order, every indicator in the
      log belongs to a pending request, and no two indicators share an id. */
  ghost predicate RequestsValid(log: seq<Entry>, pending: set<nat>, nextId: nat) {
    && (forall id :: id in pending ==> id < nextId)
    && (forall e :: e in log && e.Loading? ==> e.id in pending)
    && LoadingIdsUnique(log)
  }

  /** Starting request `nextId` keeps the bookkeeping valid. */
  lemma StartKeepsRequestsValid(log: seq<Entry>, pending: set<nat>, nextId: nat, text: string)
    requires RequestsValid(log, pending, nextId)
    ensures RequestsValid(log + [Message(text, UserSender), Loading(nextId)], pending + {nextId},
                          nextId + 1)
  {
    AppendRequestKeepsUnique(log, text, nextId);
    var added := [Message(text, UserSender), Loading(nextId)];
    assert forall e :: e in log + added ==> e in log || e in added;
  }

  /** Settling request `id` with a bot message keeps the bookkeeping valid. */
  lemma SettleKeepsRequestsValid(log: seq<Entry>, pending: set<nat>, nextId: nat, id: nat, text: string)
    requires RequestsValid(log, pending, nextId)
    ensures RequestsValid(RemoveLoading(log, id) + [Message(text, BotSender)], pending - {id}, nextId)
  {
    RemoveLoadingKeepsUnique(log, id);
    var r := RemoveLoading(log, id) + [Message(text, BotSender)];
    forall e | e in r && e.Loading? ensures e.id in pending - {id} {
      assert e in RemoveLoading(log, id);
    }
    forall i, j | 0 <= i < j < |r| && r[i].Loading? && r[j].Loading? ensures r[i].id != r[j].id {
      assert j < |r| - 1;
      assert r[i] == RemoveLoading(log, id)[i] && r[j] == RemoveLoading(log, id)[j];
    }
  }

  /** Removing the indicator of a request from a log whose indicators are unique removes
      every trace of it and keeps the others unique. */
  lemma RemoveLoadingKeepsUnique(log: seq<Entry>, id: nat)
    requires LoadingIdsUnique(log)
    ensures var r := RemoveLoading(log, id);
      && Loading(id) !in r && LoadingIdsUnique(r)
      && forall e :: e in r ==> e in log
  {
    var r := RemoveLoading(log, id);
    RemoveLoadingSpec(log, id);
    if Loading(id) in log {
      var k := FirstLoading(log, id);
      assert r == log[..k] + log[k + 1..];
      forall i | 0 <= i < |r| ensures r[i] == log[if i < k then i else i + 1] && r[i] != Loading(id) {
        if i >= k {
          assert log[k].Loading? && log[i + 1].Loading? ==> log[k].id != log[i + 1].id;
        }
      }
    }
  }

  /** Appending a user message and the indicator of a request newer than every indicator
      in the log keeps the indicators unique. */
  lemma AppendRequestKeepsUnique(log: seq<Entry>, text: string, id: nat)
    requires LoadingIdsUnique(log)
    requires forall e :: e in log && e.Loading? ==> e.id < id
    ensures LoadingIdsUnique(log + [Message(text, UserSender), Loading(id)])
  {
    var r := log + [Message(text, UserSender), Loading(id)];
    forall i | 0 <= i < |log| && r[i].Loading? ensures r[i].id < id {
      assert r[i] == log[i] && log[i] in log;
    }
  }
}
