/**
 * The chat client's conversation state (script.js): the table of
 * conversations keyed by id, the order of its keys (`Object.keys` order,
 * which is insertion order), the active conversation and what was last
 * written to storage. The handlers of the client are the methods of `Store`.
 */
module ChatStore {
  import opened Wrappers
  import opened Conversations
  import JsString

  /** The id `startNewChat` makes from the clock: `chat_${Date.now()}`. */
  function ChatId(now: nat): (id: string)
    ensures |id| > 5 && id[..5] == "chat_"
  {
    "chat_" + JsString.Decimal(now)
  }

  /** Different clock readings give different ids. */
  lemma ChatIdInjective(m: nat, n: nat)
    requires ChatId(m) == ChatId(n)
    ensures m == n
  {
    assert ChatId(m)[5..] == JsString.Decimal(m) && ChatId(n)[5..] == JsString.Decimal(n);
    JsString.DecimalInjective(m, n);
  }

  /** The persistent store's contents: the keys in serialisation order and their values. */
  datatype Snapshot = Snapshot(keys: seq<string>, entries: map<string, StoredValue>)

  /** One row of the history list: its id, its title, and the 'active' and 'pinned' classes. */
  datatype HistoryItem = HistoryItem(id: string, title: string, active: bool, pinned: bool)

  /** The key order after `delete conversations[id]`. */
  function KeysWithout(keys: seq<string>, id: string): (r: seq<string>)
    ensures forall k :: k in r <==> k in keys && k != id
    ensures Distinct(keys) ==> Distinct(r)
    ensures r != [] ==> exists i :: 0 <= i < |keys| && keys[i] == r[0] && forall j :: 0 <= j < i ==> keys[j] == id
  {
    if keys == [] then []
    else
      var rest := KeysWithout(keys[1..], id);
      if keys[0] == id then
        assert rest != [] ==> exists i :: 0 <= i < |keys| && keys[i] == rest[0] && forall j :: 0 <= j < i ==> keys[j] == id by {
          if rest != [] {
            var i :| 0 <= i < |keys[1..]| && keys[1..][i] == rest[0] && forall j :: 0 <= j < i ==> keys[1..][j] == id;
            assert keys[i + 1] == rest[0] && forall j :: 0 <= j < i + 1 ==> keys[j] == id;
          }
        }
        rest
      else
        assert keys[0] == ([keys[0]] + rest)[0];
        assert Distinct(keys) ==> keys[0] !in rest by {
          if Distinct(keys) {
            assert forall k :: 0 <= k < |keys[1..]| ==> keys[1..][k] != keys[0] by {
              forall k | 0 <= k < |keys[1..]| ensures keys[1..][k] != keys[0] { assert keys[1..][k] == keys[k + 1]; }
            }
          }
        }
        [keys[0]] + rest
  }

  /** `a` sits before `b` somewhere in `keys`. */
  ghost predicate ComesBefore(keys: seq<string>, a: string, b: string)
  {
    exists p, q :: 0 <= p < q < |keys| && keys[p] == a && keys[q] == b
  }

  lemma BeforeInTail(keys: seq<string>, a: string, b: string)
    requires keys != [] && ComesBefore(keys[1..], a, b)
    ensures ComesBefore(keys, a, b)
  {
    var p, q :| 0 <= p < q < |keys[1..]| && keys[1..][p] == a && keys[1..][q] == b;
    assert keys[p + 1] == a && keys[q + 1] == b;
  }

  /** `delete` keeps the relative order of the remaining keys. */
  lemma {:induction false} KeysWithoutKeepsOrder(keys: seq<string>, id: string)
    ensures forall i, j :: 0 <= i < j < |KeysWithout(keys, id)| ==>
      ComesBefore(keys, KeysWithout(keys, id)[i], KeysWithout(keys, id)[j])
  {
    if keys != [] {
      var r := KeysWithout(keys, id);
      var rest := KeysWithout(keys[1..], id);
      KeysWithoutKeepsOrder(keys[1..], id);
      forall i, j | 0 <= i < j < |r|
        ensures ComesBefore(keys, r[i], r[j])
      {
        if keys[0] == id {
          assert r == rest;
          BeforeInTail(keys, r[i], r[j]);
        } else if i == 0 {
          assert r == [keys[0]] + rest;
          assert r[j] == rest[j - 1] && r[j] in rest;
          var q :| 0 <= q < |keys[1..]| && keys[1..][q] == r[j];
          assert keys[0] == r[0] && keys[q + 1] == r[j];
        } else {
          assert r == [keys[0]] + rest;
          assert r[i] == rest[i - 1] && r[j] == rest[j - 1];
          BeforeInTail(keys, r[i], r[j]);
        }
      }
    }
  }

  /** `conversations[id].isPinned = !conversations[id].isPinned`, when `id` is present. */
  function TogglePinned(table: map<string, Conversation>, id: string): (r: map<string, Conversation>)
    ensures r.Keys == table.Keys
    ensures forall k :: k in table && k != id ==> r[k] == table[k]
    ensures id in table ==> r[id].messages == table[id].messages && r[id].isPinned == !table[id].isPinned
  {
    if id in table then table[id := Conversation(table[id].messages, !table[id].isPinned)] else table
  }

  /** Toggling a pin twice restores the table. */
  lemma TogglePinTwice(table: map<string, Conversation>, id: string)
    ensures TogglePinned(TogglePinned(table, id), id) == table
  {
    var once := TogglePinned(table, id);
    var twice := TogglePinned(once, id);
    forall k | k in table ensures twice[k] == table[k] {
      if k == id {
        assert twice[k].messages == table[k].messages && twice[k].isPinned == table[k].isPinned;
      }
    }
  }

  /** `conversations[id].messages.push(m)`. */
  function Appended(table: map<string, Conversation>, id: string, m: Message): (r: map<string, Conversation>)
    requires id in table
    ensures r.Keys == table.Keys
    ensures forall k :: k in table && k != id ==> r[k] == table[k]
    ensures r[id].messages == table[id].messages + [m] && r[id].isPinned == table[id].isPinned
  {
    table[id := Conversation(table[id].messages + [m], table[id].isPinned)]
  }

  /**
   * The table after one whole `sendMessage` on `id`: the record is first
   * created empty unless the chat was `live`, then the user's text and, on
   * success, the reply are pushed. Only that conversation changes, and it
   * grows by exactly those messages, in that order.
   */
  function Exchanged(table: map<string, Conversation>, id: string, live: bool, user: string, reply: Option<string>)
    : (r: map<string, Conversation>)
    requires live ==> id in table
    ensures r.Keys == table.Keys + {id}
    ensures forall k :: k in table && k != id ==> r[k] == table[k]
    ensures r[id].messages ==
      (if live then table[id].messages else []) + [Message(UserRole, user)]
      + (if reply.Some? then [Message(ModelRole, reply.value)] else [])
    ensures r[id].isPinned == (live && table[id].isPinned)
  {
    var start := if live then table else table[id := Conversation([], false)];
    var sent := Appended(start, id, Message(UserRole, user));
    if reply.Some? then Appended(sent, id, Message(ModelRole, reply.value)) else sent
  }

  /** The rows `displayHistory` renders, in listing order. */
  function HistoryOf(table: map<string, Conversation>, keys: seq<string>, current: Option<string>): (items: seq<HistoryItem>)
    requires AllIn(keys, table) && Distinct(keys)
    ensures |items| == |keys|
    ensures forall i :: 0 <= i < |items| ==> items[i].id in keys && items[i].id in table
    ensures forall i, j :: 0 <= i < j < |items| ==> Precedes(items[i].id, items[j].id, table)
    ensures forall i :: 0 <= i < |items| ==>
      items[i].title == Title(table[items[i].id]) && items[i].pinned == table[items[i].id].isPinned
      && (items[i].active <==> current == Some(items[i].id))
  {
    var ids := Listing(keys, table);
    assert |ids| == |multiset(ids)| == |multiset(keys)| == |keys|;
    assert forall i :: 0 <= i < |ids| ==> ids[i] in keys by {
      forall i | 0 <= i < |ids| ensures ids[i] in keys { assert ids[i] in multiset(ids); }
    }
    seq(|ids|, i requires 0 <= i < |ids| =>
      HistoryItem(ids[i], Title(table[ids[i]]), current == Some(ids[i]), table[ids[i]].isPinned))
  }

  /** Every key has one row, and when the active id names a conversation exactly one row is active. */
  lemma HistoryRows(table: map<string, Conversation>, keys: seq<string>, current: Option<string>)
    requires AllIn(keys, table) && Distinct(keys)
    ensures forall k :: k in keys ==> exists i :: 0 <= i < |HistoryOf(table, keys, current)| && HistoryOf(table, keys, current)[i].id == k
    ensures current.Some? && current.value in keys ==>
      exists i :: 0 <= i < |keys| && HistoryOf(table, keys, current)[i].active
        && forall j :: 0 <= j < |keys| && HistoryOf(table, keys, current)[j].active ==> j == i
  {
    var items := HistoryOf(table, keys, current);
    var ids := Listing(keys, table);
    forall k | k in keys ensures exists i :: 0 <= i < |items| && items[i].id == k {
      assert k in multiset(keys);
      var i :| 0 <= i < |ids| && ids[i] == k;
      assert items[i].id == k;
    }
    if current.Some? && current.value in keys {
      var i :| 0 <= i < |items| && items[i].id == current.value;
      forall j | 0 <= j < |keys| && items[j].active ensures j == i {
        if j != i {
          var a, b := if i < j then i else j, if i < j then j else i;
          assert Precedes(items[a].id, items[b].id, table);
          CompareConsistent(items[a].id, items[b].id, items[b].id, table);
        }
      }
    }
  }

  class Store {
    /** `conversations`: id to record. */
    var conversations: map<string, Conversation>
    /** `Object.keys(conversations)`: the ids in insertion order. */
    var order: seq<string>
    /** `currentChatId`, `null` as `None`. */
    var currentChatId: Option<string>
    /** What `localStorage['aiChatHistory']` holds. */
    var saved: Snapshot
    /**
     * How many times `chatWindow.innerHTML = ''` has run. Emptying the chat
     * window also removes a pending typing indicator, so a send whose
     * indicator is gone fails at `chatWindow.removeChild`.
     */
    var windowClears: nat

    /** The key order lists exactly the keys of the table, each once. */
    ghost predicate Valid()
      reads this
    {
      Distinct(order) && AllIn(order, conversations) && forall k :: k in conversations ==> k in order
    }

    /** The active id names a conversation. */
    predicate HasCurrent()
      reads this
    {
      currentChatId.Some? && currentChatId.value in conversations
    }

    /** The test `currentChatId && conversations[currentChatId]` of sendMessage: the empty id counts as none. */
    predicate HasLiveCurrent()
      reads this
    {
      HasCurrent() && currentChatId.value != ""
    }

    /** The rows of the history list. */
    function History(): (items: seq<HistoryItem>)
      reads this
      requires Valid()
      ensures |items| == |order|
      ensures forall k :: k in conversations ==> exists i :: 0 <= i < |items| && items[i].id == k
      ensures forall i, j :: 0 <= i < j < |items| ==>
        items[i].id in conversations && items[j].id in conversations
        && Precedes(items[i].id, items[j].id, conversations)
      ensures forall i :: 0 <= i < |items| ==>
        items[i].id in conversations
        && items[i].title == Title(conversations[items[i].id])
        && items[i].pinned == conversations[items[i].id].isPinned
        && (items[i].active <==> currentChatId == Some(items[i].id))
    {
      HistoryRows(conversations, order, currentChatId);
      HistoryOf(conversations, order, currentChatId)
    }

    /**
     * Start-up (script.js:17-30): the decoded storage value (an empty table
     * when nothing is stored) is migrated key by key; no conversation is active
     * and storage still holds what was read.
     */
    constructor Load(keys: seq<string>, stored: map<string, StoredValue>)
      requires Distinct(keys) && forall k :: k in stored <==> k in keys
      ensures Valid()
      ensures conversations == Migrated(stored) && order == keys
      ensures currentChatId == None
      ensures saved == Snapshot(keys, stored)
      ensures windowClears == 0
    {
      var table := MigrateAll(keys, stored);
      conversations := table;
      order := keys;
      currentChatId := None;
      saved := Snapshot(keys, stored);
      windowClears := 0;
    }

    /** `saveConversations`: the whole table is written, in key order. */
    method Save()
      modifies this`saved
      ensures saved == Snapshot(order, Persisted(conversations))
    {
      saved := Snapshot(order, Persisted(conversations));
    }

    /** `loadChat(id)`: an absent id changes nothing; a present one becomes active and the window is emptied. */
    method LoadChat(id: string)
      requires Valid()
      modifies this`currentChatId, this`windowClears
      ensures Valid()
      ensures currentChatId == if id in conversations then Some(id) else old(currentChatId)
      ensures windowClears == if id in conversations then old(windowClears) + 1 else old(windowClears)
      ensures old(HasCurrent()) ==> HasCurrent()
    {
      if id !in conversations {
        return;
      }
      currentChatId := Some(id);
      windowClears := windowClears + 1;
    }

    /**
     * `startNewChat`: an empty, unpinned record is stored under a clock-made id
     * and made active. The assignment overwrites a record already under that id
     * and then keeps its place in the key order. The window is emptied twice,
     * once here and once by `loadChat`. Nothing is saved.
     */
    method StartNewChat(now: nat)
      requires Valid()
      modifies this`conversations, this`order, this`currentChatId, this`windowClears
      ensures Valid() && HasLiveCurrent()
      ensures windowClears == old(windowClears) + 2
      ensures conversations == old(conversations)[ChatId(now) := Conversation([], false)]
      ensures order == if ChatId(now) in old(conversations) then old(order) else old(order) + [ChatId(now)]
      ensures currentChatId == Some(ChatId(now))
    {
      var id := ChatId(now);
      currentChatId := Some(id);
      if id !in conversations {
        order := order + [id];
      }
      conversations := conversations[id := Conversation([], false)];
      windowClears := windowClears + 1;
      LoadChat(id);
    }

    /** `handlePinToggle(id)`: flips the pin of a present id and saves; an absent id changes nothing. */
    method TogglePin(id: string)
      requires Valid()
      modifies this`conversations, this`saved
      ensures Valid()
      ensures conversations == TogglePinned(old(conversations), id)
      ensures saved == if id in old(conversations) then Snapshot(order, Persisted(conversations)) else old(saved)
      ensures old(HasCurrent()) ==> HasCurrent()
    {
      if id !in conversations {
        return;
      }
      conversations := conversations[id := Conversation(conversations[id].messages, !conversations[id].isPinned)];
      Save();
    }

    /**
     * `handleDeleteChat(id)`, with the user's answer to the confirmation dialog
     * as `confirmed` and the clock as `now`. A present, confirmed id is removed
     * and the table saved. If it was active, the first remaining key in
     * insertion order becomes active, or, when none remains, a new chat is
     * started (and not saved).
     */
    method DeleteChat(id: string, confirmed: bool, now: nat)
      requires Valid()
      modifies this`conversations, this`order, this`currentChatId, this`saved, this`windowClears
      ensures Valid()
      ensures !(id in old(conversations) && confirmed) ==>
        conversations == old(conversations) && order == old(order)
        && currentChatId == old(currentChatId) && saved == old(saved) && windowClears == old(windowClears)
      ensures id in old(conversations) && confirmed ==>
        saved == Snapshot(KeysWithout(old(order), id), Persisted(old(conversations) - {id}))
      ensures id in old(conversations) && confirmed && old(currentChatId) != Some(id) ==>
        conversations == old(conversations) - {id} && order == KeysWithout(old(order), id)
        && currentChatId == old(currentChatId) && windowClears == old(windowClears)
      ensures id in old(conversations) && confirmed && old(currentChatId) == Some(id) && KeysWithout(old(order), id) != [] ==>
        conversations == old(conversations) - {id} && order == KeysWithout(old(order), id)
        && currentChatId == Some(KeysWithout(old(order), id)[0]) && windowClears == old(windowClears) + 1
      ensures id in old(conversations) && confirmed && old(currentChatId) == Some(id) && KeysWithout(old(order), id) == [] ==>
        conversations == map[ChatId(now) := Conversation([], false)] && order == [ChatId(now)]
        && currentChatId == Some(ChatId(now)) && windowClears == old(windowClears) + 2
      ensures old(HasCurrent()) ==> HasCurrent()
    {
      if id !in conversations {
        return;
      }
      if confirmed {
        conversations := conversations - {id};
        order := KeysWithout(order, id);
        Save();
        if currentChatId == Some(id) {
          if |order| > 0 {
            LoadChat(order[0]);
          } else {
            assert conversations == map[];
            StartNewChat(now);
          }
        }
      }
    }

    /**
     * `if (!currentChatId || !conversations[currentChatId]) startNewChat();`
     * from sendMessage: a live active chat is kept, otherwise one is started.
     */
    method EnsureLiveChat(now: nat)
      requires Valid()
      modifies this`conversations, this`order, this`currentChatId, this`windowClears
      ensures Valid() && HasLiveCurrent()
      ensures conversations ==
        if old(HasLiveCurrent()) then old(conversations) else old(conversations)[ChatId(now) := Conversation([], false)]
      ensures order ==
        if old(HasLiveCurrent()) || ChatId(now) in old(conversations) then old(order) else old(order) + [ChatId(now)]
      ensures currentChatId == if old(HasLiveCurrent()) then old(currentChatId) else Some(ChatId(now))
      ensures windowClears == if old(HasLiveCurrent()) then old(windowClears) else old(windowClears) + 2
    {
      if !HasLiveCurrent() {
        StartNewChat(now);
      }
    }

    /** `conversations[currentChatId].messages.push(m)`: the active chat grows by `m`. */
    method Push(m: Message)
      requires Valid() && HasCurrent()
      modifies this`conversations
      ensures Valid() && HasCurrent()
      ensures conversations == Appended(old(conversations), currentChatId.value, m)
    {
      conversations := Appended(conversations, currentChatId.value, m);
    }

    /**
     * The part of `sendMessage` before the request is awaited. Input that trims
     * to nothing changes nothing. Otherwise a chat is started when no live one
     * is active, the trimmed text is appended to the active chat as a user
     * message, and the history sent to the relay is returned together with the
     * typing indicator, identified by the window-clear count it was shown at.
     * Nothing is saved.
     */
    method BeginSend(input: string, now: nat) returns (request: Option<seq<Message>>, indicator: nat)
      requires Valid()
      modifies this`conversations, this`order, this`currentChatId, this`windowClears
      ensures Valid()
      ensures JsString.Trim(input) == [] ==>
        request == None && conversations == old(conversations) && order == old(order) && currentChatId == old(currentChatId)
        && windowClears == old(windowClears)
      ensures JsString.Trim(input) != [] ==>
        indicator == windowClears
        && windowClears == (if old(HasLiveCurrent()) then old(windowClears) else old(windowClears) + 2)
      ensures JsString.Trim(input) != [] ==>
        order == (if old(HasLiveCurrent()) || ChatId(now) in old(conversations) then old(order) else old(order) + [ChatId(now)])
        && currentChatId == (if old(HasLiveCurrent()) then old(currentChatId) else Some(ChatId(now)))
      ensures JsString.Trim(input) != [] ==>
        HasLiveCurrent()
        && conversations == Exchanged(old(conversations), currentChatId.value, old(HasLiveCurrent()), JsString.Trim(input), None)
      ensures JsString.Trim(input) != [] ==>
        HasLiveCurrent() && request == Some(conversations[currentChatId.value].messages)
    {
      var userText := JsString.Trim(input);
      if userText == [] {
        return None, windowClears;
      }
      EnsureLiveChat(now);
      Push(Message(UserRole, userText));
      var messages := conversations[currentChatId.value].messages;
      request := Some(messages);
      indicator := windowClears;
    }

    /**
     * The part of `sendMessage` after the relay answered. When the window was
     * emptied since `indicator` was shown (a chat was loaded or started during
     * the await), `removeChild` throws into the catch block and nothing
     * changes. A failed request (`None`) changes nothing either; otherwise the
     * reply text is appended to the active chat as a model message and the
     * table saved.
     */
    method CompleteSend(reply: Option<string>, indicator: nat)
      requires Valid()
      modifies this`conversations, this`saved
      ensures Valid()
      ensures !(reply.Some? && windowClears == indicator && old(HasCurrent())) ==>
        conversations == old(conversations) && saved == old(saved)
      ensures reply.Some? && windowClears == indicator && old(HasCurrent()) ==>
        conversations == Appended(old(conversations), currentChatId.value, Message(ModelRole, reply.value))
        && saved == Snapshot(order, Persisted(conversations))
      ensures old(HasCurrent()) ==> HasCurrent()
    {
      if windowClears != indicator || reply.None? || !HasCurrent() {
        return;
      }
      Push(Message(ModelRole, reply.value));
      Save();
    }

    /**
     * A whole `sendMessage` with nothing interleaved at the await: the active
     * chat's messages grow by the user message and then, on success, the
     * reply, in that order; every other conversation is unchanged.
     */
    method SendMessage(input: string, now: nat, reply: Option<string>)
      requires Valid()
      modifies this`conversations, this`order, this`currentChatId, this`saved, this`windowClears
      ensures Valid()
      ensures JsString.Trim(input) == [] ==>
        conversations == old(conversations) && order == old(order)
        && currentChatId == old(currentChatId) && saved == old(saved) && windowClears == old(windowClears)
      ensures JsString.Trim(input) != [] ==>
        order == (if old(HasLiveCurrent()) || ChatId(now) in old(conversations) then old(order) else old(order) + [ChatId(now)])
        && windowClears == (if old(HasLiveCurrent()) then old(windowClears) else old(windowClears) + 2)
      ensures JsString.Trim(input) != [] ==>
        HasLiveCurrent()
        && currentChatId == (if old(HasLiveCurrent()) then old(currentChatId) else Some(ChatId(now)))
        && conversations == Exchanged(old(conversations), currentChatId.value, old(HasLiveCurrent()), JsString.Trim(input), reply)
      ensures JsString.Trim(input) != [] && reply.None? ==> saved == old(saved)
      ensures JsString.Trim(input) != [] && reply.Some? ==> saved == Snapshot(order, Persisted(conversations))
    {
      var request, indicator := BeginSend(input, now);
      if request.None? {
        return;
      }
      assert saved == old(saved);
      CompleteSend(reply, indicator);
    }

    /**
     * The initialisation block (script.js:201-213): with saved conversations,
     * the first id of the listing becomes active; with none, a chat is started.
     */
    method Initialize(now: nat)
      requires Valid()
      modifies this`conversations, this`order, this`currentChatId, this`windowClears
      ensures Valid() && HasCurrent()
      ensures old(order) != [] ==>
        conversations == old(conversations) && order == old(order)
        && currentChatId == Some(Listing(order, conversations)[0])
        && forall k :: k in conversations && k != currentChatId.value ==> Precedes(currentChatId.value, k, conversations)
      ensures windowClears == if old(order) != [] then old(windowClears) + 1 else old(windowClears) + 2
      ensures old(order) == [] ==>
        conversations == old(conversations)[ChatId(now) := Conversation([], false)]
        && order == [ChatId(now)] && currentChatId == Some(ChatId(now))
    {
      if |order| > 0 {
        var sortedIds := Listing(order, conversations);
        ListingHead(order, conversations);
        LoadChat(sortedIds[0]);
      } else {
        StartNewChat(now);
      }
    }
  }
}
