/**
 * The values kept by the chat client (script.js): messages, conversation
 * records, the legacy storage shape and its one-pass migration, the order in
 * which the history list shows conversations, and the title shown for each.
 */
module Conversations {
  import opened Wrappers
  import JsString

  const UserRole := "user"
  const ModelRole := "model"
  /** The history title of a conversation without any user message. */
  const NewChatTitle := "New Chat"

  /** One turn `{role, parts: [{text}]}`, kept as its role and the text of its first part. */
  datatype Message = Message(role: string, text: string)

  /** A conversation record `{messages, isPinned}`. */
  datatype Conversation = Conversation(messages: seq<Message>, isPinned: bool)

  /** A value as decoded from storage: a bare message array (the legacy shape) or a record. */
  datatype StoredValue = LegacyArray(messages: seq<Message>) | RecordValue(record: Conversation)

  // ---------------------------------------------------------------------------
  // Migration (script.js:22-30) and what saving writes back (script.js:35-37)
  // ---------------------------------------------------------------------------

  /** The record the migration loop leaves under a key holding `v`. */
  function Migrate(v: StoredValue): Conversation {
    match v
    case LegacyArray(ms) => Conversation(ms, false)
    case RecordValue(c) => c
  }

  /** The whole table once the migration loop has visited every key. */
  function Migrated(stored: map<string, StoredValue>): map<string, Conversation> {
    map k | k in stored :: Migrate(stored[k])
  }

  /** What `saveConversations` serialises: every entry in the record shape. */
  function Persisted(table: map<string, Conversation>): map<string, StoredValue> {
    map k | k in table :: RecordValue(table[k])
  }

  /**
   * The migration loop, run over the keys in `Object.keys` order. It rewrites
   * the decoded table in place, one key at a time, and then every value is a
   * record.
   */
  method MigrateAll(keys: seq<string>, stored: map<string, StoredValue>)
    returns (table: map<string, Conversation>)
    requires forall k :: k in stored <==> k in keys
    ensures table == Migrated(stored)
  {
    var working := stored;
    var i := 0;
    while i < |keys|
      invariant 0 <= i <= |keys|
      invariant working.Keys == stored.Keys
      invariant forall k :: k in working && k in keys[..i] ==> working[k] == RecordValue(Migrate(stored[k]))
      invariant forall k :: k in working && k !in keys[..i] ==> working[k] == stored[k]
    {
      var id := keys[i];
      if working[id].LegacyArray? {
        working := working[id := RecordValue(Conversation(working[id].messages, false))];
      }
      assert keys[..i + 1] == keys[..i] + [id];
      i := i + 1;
    }
    assert keys[..i] == keys;
    table := map k | k in working :: working[k].record;
  }

  /** Migration keeps the key set, wraps every legacy array as an unpinned record and keeps records. */
  lemma MigratedEntries(stored: map<string, StoredValue>, k: string)
    requires k in stored
    ensures Migrated(stored).Keys == stored.Keys
    ensures stored[k].LegacyArray? ==> Migrated(stored)[k] == Conversation(stored[k].messages, false)
    ensures stored[k].RecordValue? ==> Migrated(stored)[k] == stored[k].record
  {
  }

  /** Loading what was saved gives back exactly the table that was saved. */
  lemma SaveThenLoad(table: map<string, Conversation>)
    ensures Migrated(Persisted(table)) == table
  {
  }

  /** Load, save, load: the second load sees the same migrated shape as the first (no double wrapping). */
  lemma LoadSaveLoad(stored: map<string, StoredValue>)
    ensures Migrated(Persisted(Migrated(stored))) == Migrated(stored)
  {
    SaveThenLoad(Migrated(stored));
  }

  /** On the storage shape, running the migration twice is the same as running it once. */
  lemma MigrationIdempotent(stored: map<string, StoredValue>)
    ensures Persisted(Migrated(Persisted(Migrated(stored)))) == Persisted(Migrated(stored))
  {
    LoadSaveLoad(stored);
  }

  // ---------------------------------------------------------------------------
  // Listing order: the comparator of displayHistory (script.js:59-65), repeated
  // at start-up (script.js:203-209)
  // ---------------------------------------------------------------------------

  /** `x.localeCompare(y)`, modelled as plain lexicographic comparison. */
  function CompareStrings(x: string, y: string): (r: int)
    ensures r == 0 <==> x == y
    ensures r < 0 <==> JsString.Less(x, y)
  {
    JsString.LessIrreflexive(x);
    if x == y then 0
    else if JsString.Less(x, y) then -1
    else 1
  }

  /** The sort comparator: pinned before unpinned, otherwise `b.localeCompare(a)`. */
  function Compare(a: string, b: string, table: map<string, Conversation>): int
    requires a in table && b in table
  {
    var aPinned := table[a].isPinned;
    var bPinned := table[b].isPinned;
    if aPinned && !bPinned then -1
    else if !aPinned && bPinned then 1
    else CompareStrings(b, a)
  }

  /**
   * `a` sorts before `b` exactly when it is pinned and `b` is not, or their
   * pins agree and `b` sorts before `a` as a string; only an id ties with itself.
   */
  lemma CompareMeaning(a: string, b: string, table: map<string, Conversation>)
    requires a in table && b in table
    ensures Compare(a, b, table) < 0 <==>
      (table[a].isPinned && !table[b].isPinned) || (table[a].isPinned == table[b].isPinned && JsString.Less(b, a))
    ensures Compare(a, b, table) == 0 <==> table[a].isPinned == table[b].isPinned && a == b
  {
  }

  /** `a` is listed before `b`. */
  predicate Precedes(a: string, b: string, table: map<string, Conversation>)
    requires a in table && b in table
  {
    Compare(a, b, table) < 0
  }

  /**
   * The comparator is consistent, as `Array.prototype.sort` needs: it reports
   * equality only for the same key, swapping its arguments flips its sign, and
   * its order is transitive.
   */
  lemma CompareConsistent(a: string, b: string, c: string, table: map<string, Conversation>)
    requires a in table && b in table && c in table
    ensures Compare(a, b, table) == 0 <==> a == b
    ensures Compare(a, b, table) < 0 <==> Compare(b, a, table) > 0
    ensures Precedes(a, b, table) && Precedes(b, c, table) ==> Precedes(a, c, table)
  {
    if a != b { JsString.LessTotal(a, b); }
    if JsString.Less(a, b) && JsString.Less(b, a) { JsString.LessTransitive(a, b, a); JsString.LessIrreflexive(a); }
    if Precedes(a, b, table) && Precedes(b, c, table)
      && table[a].isPinned == table[b].isPinned == table[c].isPinned {
      JsString.LessTransitive(c, b, a);
    }
  }

  predicate AllIn(ids: seq<string>, table: map<string, Conversation>) {
    forall k :: k in ids ==> k in table
  }

  predicate Distinct(ids: seq<string>) {
    forall i, j :: 0 <= i < j < |ids| ==> ids[i] != ids[j]
  }

  /** Every key of `ids` precedes every later key. */
  predicate Ordered(ids: seq<string>, table: map<string, Conversation>)
    requires AllIn(ids, table)
  {
    forall i, j :: 0 <= i < j < |ids| ==> Precedes(ids[i], ids[j], table)
  }

  /** Puts `id` into the ordered sequence `ids` at its place. */
  function Insert(id: string, ids: seq<string>, table: map<string, Conversation>): (r: seq<string>)
    requires id in table && AllIn(ids, table)
    ensures multiset(r) == multiset(ids) + multiset{id}
    ensures AllIn(r, table)
    ensures Ordered(ids, table) && id !in ids ==> Ordered(r, table)
  {
    if ids == [] then [id]
    else if Precedes(id, ids[0], table) then
      PrependKeepsOrder(id, ids, table);
      [id] + ids
    else
      var rest := Insert(id, ids[1..], table);
      InsertBehindHead(id, ids, rest, table);
      [ids[0]] + rest
  }

  /** A key that precedes the head of an ordered sequence can be put in front of it. */
  lemma PrependKeepsOrder(id: string, ids: seq<string>, table: map<string, Conversation>)
    requires id in table && AllIn(ids, table) && ids != [] && Precedes(id, ids[0], table)
    ensures AllIn([id] + ids, table)
    ensures Ordered(ids, table) ==> Ordered([id] + ids, table)
  {
    if Ordered(ids, table) {
      forall j | 0 < j < |ids| { CompareConsistent(id, ids[0], ids[j], table); }
    }
  }

  /** When `id` does not go in front, the old head stays in front of the rest with `id` inserted. */
  lemma InsertBehindHead(id: string, ids: seq<string>, rest: seq<string>, table: map<string, Conversation>)
    requires id in table && AllIn(ids, table) && ids != [] && !Precedes(id, ids[0], table)
    requires multiset(rest) == multiset(ids[1..]) + multiset{id} && AllIn(rest, table)
    requires Ordered(ids[1..], table) && id !in ids[1..] ==> Ordered(rest, table)
    ensures AllIn([ids[0]] + rest, table)
    ensures multiset([ids[0]] + rest) == multiset(ids) + multiset{id}
    ensures Ordered(ids, table) && id !in ids ==> Ordered([ids[0]] + rest, table)
  {
    assert ids == [ids[0]] + ids[1..];
    if Ordered(ids, table) && id !in ids {
      CompareConsistent(id, ids[0], id, table);
      forall j | 0 <= j < |rest| ensures Precedes(ids[0], rest[j], table) {
        assert rest[j] in multiset(rest);
        if rest[j] != id {
          assert rest[j] in multiset(ids[1..]);
          var k :| 0 <= k < |ids[1..]| && ids[1..][k] == rest[j];
          assert ids[k + 1] == rest[j];
        }
      }
    }
  }

  /** The listing: `ids` sorted by the comparator. */
  function Listing(ids: seq<string>, table: map<string, Conversation>): (r: seq<string>)
    requires AllIn(ids, table)
    ensures multiset(r) == multiset(ids)
    ensures AllIn(r, table)
    ensures Distinct(ids) ==> Ordered(r, table)
  {
    if ids == [] then []
    else
      assert ids == [ids[0]] + ids[1..];
      var rest := Listing(ids[1..], table);
      assert Distinct(ids) ==> ids[0] !in rest by {
        if Distinct(ids) {
          assert forall k :: 0 <= k < |ids[1..]| ==> ids[1..][k] != ids[0] by {
            forall k | 0 <= k < |ids[1..]| ensures ids[1..][k] != ids[0] { assert ids[1..][k] == ids[k + 1]; }
          }
          assert ids[0] !in multiset(ids[1..]);
        }
      }
      Insert(ids[0], rest, table)
  }

  /** In an ordered listing every pinned key comes before every unpinned one, and keys with the same pin status descend. */
  lemma OrderedMeansPinnedFirstThenDescending(ids: seq<string>, table: map<string, Conversation>, i: int, j: int)
    requires AllIn(ids, table) && Ordered(ids, table)
    requires 0 <= i < j < |ids|
    ensures table[ids[i]].isPinned || !table[ids[j]].isPinned
    ensures table[ids[i]].isPinned == table[ids[j]].isPinned ==> JsString.Less(ids[j], ids[i])
  {
  }

  /**
   * There is only one ordered arrangement of a set of keys, so every correct
   * sort algorithm, whichever the JavaScript engine uses, yields `Listing`.
   */
  lemma {:induction false} OrderedUnique(r1: seq<string>, r2: seq<string>, table: map<string, Conversation>)
    requires AllIn(r1, table) && AllIn(r2, table)
    requires Ordered(r1, table) && Ordered(r2, table)
    requires multiset(r1) == multiset(r2)
    ensures r1 == r2
  {
    if r1 != [] {
      OrderedHeadsAgree(r1, r2, table);
      TailsSameKeys(r1, r2);
      OrderedUnique(r1[1..], r2[1..], table);
      assert r1 == [r1[0]] + r1[1..] && r2 == [r2[0]] + r2[1..];
    }
  }

  /** Two ordered arrangements of the same non-empty keys start with the same key. */
  lemma OrderedHeadsAgree(r1: seq<string>, r2: seq<string>, table: map<string, Conversation>)
    requires AllIn(r1, table) && AllIn(r2, table)
    requires Ordered(r1, table) && Ordered(r2, table)
    requires multiset(r1) == multiset(r2) && r1 != []
    ensures r2 != [] && r1[0] == r2[0]
  {
    assert r2 != [] by { assert |multiset(r2)| == |r1|; }
    assert r1[0] in multiset(r2);
    assert r2[0] in multiset(r1);
    var a, b := r1[0], r2[0];
    if a != b {
      var i :| 0 <= i < |r1| && r1[i] == b;
      var j :| 0 <= j < |r2| && r2[j] == a;
      assert Precedes(a, b, table) && Precedes(b, a, table);
      CompareConsistent(a, b, a, table);
    }
  }

  /** Removing the same first key from two arrangements of the same keys leaves the same keys. */
  lemma TailsSameKeys(r1: seq<string>, r2: seq<string>)
    requires r1 != [] && r2 != [] && r1[0] == r2[0] && multiset(r1) == multiset(r2)
    ensures multiset(r1[1..]) == multiset(r2[1..])
  {
    assert r1 == [r1[0]] + r1[1..] && r2 == [r2[0]] + r2[1..];
    assert multiset(r1) == multiset{r1[0]} + multiset(r1[1..]);
    assert multiset(r2) == multiset{r2[0]} + multiset(r2[1..]);
    assert multiset(r1[1..]) == multiset(r1) - multiset{r1[0]};
    assert multiset(r2[1..]) == multiset(r2) - multiset{r2[0]};
  }

  /** The first entry of a listing of distinct keys is one of them and precedes every other key. */
  lemma ListingHead(ids: seq<string>, table: map<string, Conversation>)
    requires AllIn(ids, table) && Distinct(ids) && ids != []
    ensures |Listing(ids, table)| > 0 && Listing(ids, table)[0] in ids
    ensures forall k :: k in ids && k != Listing(ids, table)[0] ==> Precedes(Listing(ids, table)[0], k, table)
  {
    var r := Listing(ids, table);
    assert |r| == |multiset(r)| == |multiset(ids)| == |ids|;
    assert r[0] in multiset(r);
    forall k | k in ids && k != r[0] ensures Precedes(r[0], k, table) {
      assert k in multiset(r);
      var j :| 0 <= j < |r| && r[j] == k;
    }
  }

  // ---------------------------------------------------------------------------
  // History title (script.js:69, script.js:79)
  // ---------------------------------------------------------------------------

  /** The text of the first user-role message, if there is one. */
  function FirstUserText(ms: seq<Message>): (r: Option<string>)
    ensures r.None? <==> forall i :: 0 <= i < |ms| ==> ms[i].role != UserRole
    ensures r.Some? ==> exists i :: 0 <= i < |ms| && ms[i].role == UserRole && ms[i].text == r.value
                                 && forall j :: 0 <= j < i ==> ms[j].role != UserRole
  {
    if ms == [] then None
    else if ms[0].role == UserRole then Some(ms[0].text)
    else
      var r := FirstUserText(ms[1..]);
      assert r.Some? ==> exists i :: 0 <= i < |ms| && ms[i].role == UserRole && ms[i].text == r.value
                                 && forall j :: 0 <= j < i ==> ms[j].role != UserRole by {
        if r.Some? {
          var i :| 0 <= i < |ms[1..]| && ms[1..][i].role == UserRole && ms[1..][i].text == r.value
                   && forall j :: 0 <= j < i ==> ms[1..][j].role != UserRole;
          assert ms[i + 1].role == UserRole && forall j :: 0 <= j < i + 1 ==> ms[j].role != UserRole;
        }
      }
      r
  }

  /** The title the history list shows: the first user message's text, or 'New Chat'. */
  function Title(c: Conversation): (title: string)
    ensures title == NewChatTitle
            || exists i :: 0 <= i < |c.messages| && c.messages[i].role == UserRole && c.messages[i].text == title
    ensures (exists i :: 0 <= i < |c.messages| && c.messages[i].role == UserRole) ==>
            exists i :: 0 <= i < |c.messages| && c.messages[i].role == UserRole && c.messages[i].text == title
  {
    match FirstUserText(c.messages)
    case Some(text) => text
    case None => NewChatTitle
  }

  /** A conversation's title is 'New Chat' when it holds no user message, and the first user text otherwise. */
  lemma TitleRule(c: Conversation)
    ensures (forall i :: 0 <= i < |c.messages| ==> c.messages[i].role != UserRole) ==> Title(c) == NewChatTitle
    ensures forall i :: 0 <= i < |c.messages| && c.messages[i].role == UserRole
                     && (forall j :: 0 <= j < i ==> c.messages[j].role != UserRole)
                     ==> Title(c) == c.messages[i].text
  {
    var ms := c.messages;
    forall i | 0 <= i < |ms| && ms[i].role == UserRole && (forall j :: 0 <= j < i ==> ms[j].role != UserRole)
      ensures Title(c) == ms[i].text
    {
      var r := FirstUserText(ms);
      var i' :| 0 <= i' < |ms| && ms[i'].role == UserRole && ms[i'].text == r.value
                && forall j :: 0 <= j < i' ==> ms[j].role != UserRole;
      assert i' == i;
    }
  }
}
