/** `RedisClient`: a per-user chat log kept in Redis under the key `chat:{user_id}`, trimmed to
    the newest 20 exchanges after every append and read back as its newest few entries. */
module ChatMemory {
  import opened RedisList

  /** `ltrim(key, -20, -1)` keeps at most this many exchanges per user. */
  const Capacity: nat := 20
  /** The default `limit` of `get_chat_history`. */
  const DefaultLimit: int := 5

  /** One stored exchange, `{"message": ..., "response": ...}`; the JSON encoding round trip
      is the identity and is not modelled. */
  datatype ChatEntry = ChatEntry(message: string, response: string)

  type ChatDb = Db<ChatEntry>

  function ChatKey(userId: string): string {
    "chat:" + userId
  }

  /** Different users never share a key, so no user ever sees another user's history. */
  lemma ChatKeyInjective()
    ensures forall a, b :: ChatKey(a) == ChatKey(b) ==> a == b
  {
    forall a, b | ChatKey(a) == ChatKey(b)
      ensures a == b
    {
      assert a == ChatKey(a)[5..] && b == ChatKey(b)[5..];
    }
  }

  /** Everything stored for a user, oldest first. */
  function History(db: ChatDb, userId: string): seq<ChatEntry> {
    Get(db, ChatKey(userId))
  }

  /** The last `n` elements of `s` (all of `s` when it is shorter), in their original order. */
  function Newest<T>(s: seq<T>, n: nat): seq<T> {
    s[|s| - Min(n, |s|)..]
  }

  /** `store_chat_history`: RPUSH the exchange, then LTRIM the list to its newest 20. */
  function StoreChatHistory(db: ChatDb, userId: string, message: string, response: string): (r: ChatDb)
    ensures History(r, userId) == Newest(History(db, userId) + [ChatEntry(message, response)], Capacity)
    ensures 0 < |History(r, userId)| <= Capacity
    ensures History(r, userId)[|History(r, userId)| - 1] == ChatEntry(message, response)
    ensures forall u :: u != userId ==> History(r, u) == History(db, u)
    ensures forall k :: k != ChatKey(userId) ==> Get(r, k) == Get(db, k)
    ensures NoEmptyLists(db) ==> NoEmptyLists(r)
  {
    ChatKeyInjective();
    var key := ChatKey(userId);
    var pushed := RPush(db, key, ChatEntry(message, response));
    RangeTail(Get(pushed, key), -(Capacity as int));
    LTrim(pushed, key, -(Capacity as int), -1)
  }

  /** `get_chat_history`: LRANGE from `-limit` to -1. */
  function GetChatHistory(db: ChatDb, userId: string, limit: int): (r: seq<ChatEntry>)
    ensures limit >= 1 ==> r == Newest(History(db, userId), limit)
    ensures limit == 0 ==> r == History(db, userId)
    ensures limit < 0 ==> r == if -limit < |History(db, userId)| then History(db, userId)[-limit..] else []
    ensures History(db, userId) == [] ==> r == []
  {
    var h := History(db, userId);
    RangeTail(h, -limit);
    RangeWhole(h);
    RangeDrop(h, -limit);
    LRange(db, ChatKey(userId), -limit, -1)
  }

  /** `clear_chat_history`: DEL the user's key. */
  function ClearChatHistory(db: ChatDb, userId: string): (r: ChatDb)
    ensures History(r, userId) == []
    ensures forall u :: u != userId ==> History(r, u) == History(db, u)
    ensures forall k :: k != ChatKey(userId) ==> Get(r, k) == Get(db, k)
    ensures NoEmptyLists(db) ==> NoEmptyLists(r)
  {
    ChatKeyInjective();
    Del(db, ChatKey(userId))
  }

  /** Clearing twice is the same as clearing once. */
  lemma ClearIdempotent(db: ChatDb, userId: string)
    ensures ClearChatHistory(ClearChatHistory(db, userId), userId) == ClearChatHistory(db, userId)
  {
  }

  /** After a clear, every read of that user's history is empty, whatever the limit. */
  lemma ReadAfterClearIsEmpty(db: ChatDb, userId: string, limit: int)
    ensures GetChatHistory(ClearChatHistory(db, userId), userId, limit) == []
  {
  }

  /** The state after storing `turns` one by one, oldest first. */
  function StoreAll(db: ChatDb, userId: string, turns: seq<ChatEntry>): ChatDb
    decreases |turns|
  {
    if |turns| == 0 then db
    else
      var last := turns[|turns| - 1];
      StoreChatHistory(StoreAll(db, userId, turns[..|turns| - 1]), userId, last.message, last.response)
  }

  lemma NewestOfNewest<T>(s: seq<T>, e: T, n: nat)
    requires n >= 1
    ensures Newest(Newest(s, n) + [e], n) == Newest(s + [e], n)
  {
  }

  /** Whatever sequence of turns is stored, the log holds exactly the newest 20 exchanges of
      the old log followed by the new turns, in the order they were stored (every log the
      store produces holds at most 20 exchanges, as the precondition says). */
  lemma {:induction false} StoreAllKeepsNewest(db: ChatDb, userId: string, turns: seq<ChatEntry>)
    requires |History(db, userId)| <= Capacity
    ensures History(StoreAll(db, userId, turns), userId) == Newest(History(db, userId) + turns, Capacity)
    decreases |turns|
  {
    var h := History(db, userId);
    if |turns| == 0 {
      assert h + turns == h;
    } else {
      StoreAllLast(db, userId, turns);
      StoreAllKeepsNewest(db, userId, turns[..|turns| - 1]);
      NewestStep(h, turns);
    }
  }

  /** The newest-20 window after one more turn, stated on the turns alone. */
  lemma NewestStep(h: seq<ChatEntry>, turns: seq<ChatEntry>)
    requires |turns| > 0
    ensures Newest(Newest(h + turns[..|turns| - 1], Capacity) + [turns[|turns| - 1]], Capacity) ==
      Newest(h + turns, Capacity)
  {
    var init, last := turns[..|turns| - 1], turns[|turns| - 1];
    NewestOfNewest(h + init, last, Capacity);
    assert h + init + [last] == h + turns by { assert turns == init + [last]; }
  }

  /** Storing a run of turns ends by storing its last turn. */
  lemma StoreAllLast(db: ChatDb, userId: string, turns: seq<ChatEntry>)
    requires |turns| > 0
    ensures History(StoreAll(db, userId, turns), userId) ==
      Newest(History(StoreAll(db, userId, turns[..|turns| - 1]), userId) + [turns[|turns| - 1]], Capacity)
  {
    StoreOne(StoreAll(db, userId, turns[..|turns| - 1]), userId, turns[|turns| - 1]);
  }

  lemma StoreOne(db: ChatDb, userId: string, t: ChatEntry)
    ensures History(StoreChatHistory(db, userId, t.message, t.response), userId) == Newest(History(db, userId) + [t], Capacity)
  {
    assert t == ChatEntry(t.message, t.response);
  }
}
