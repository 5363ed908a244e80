/**
 * The chat page: one global message log kept under `chat_messages`, to which
 * the signed-in user appends.
 */
module Chat {
  import opened Strings
  import opened Store

  /** What the chat form's submit handler does to the store, for a page that
      read the name `user` and the picture `pfp` at start-up; `timestamp` is
      the clock's reading. A message that is empty after trimming is dropped. */
  function ChatSend(m: Entries, user: string, pfp: Option<string>, rawText: string, timestamp: string): Entries {
    var text := Trim(rawText);
    if text == "" then m
    else m[ChatKey := Log(ChatLog(m) + [ChatMessage(user, text, pfp, timestamp)])]
  }

  /** A message made only of white space leaves the store as it was. */
  lemma BlankMessageIsDropped(m: Entries, user: string, pfp: Option<string>, rawText: string, timestamp: string)
    requires forall k :: 0 <= k < |rawText| ==> IsSpace(rawText[k])
    ensures ChatSend(m, user, pfp, rawText, timestamp) == m
  {
    TrimEmptyIffAllSpace(rawText);
  }

  /** Any other message adds exactly one entry at the end of the log, with the
      page's user and the trimmed text; the earlier entries and every key but
      the chat key stay as they were. */
  lemma SendAppendsOneMessage(m: Entries, user: string, pfp: Option<string>, rawText: string, timestamp: string)
    requires exists k :: 0 <= k < |rawText| && !IsSpace(rawText[k])
    ensures var after := ChatSend(m, user, pfp, rawText, timestamp);
      var log := ChatLog(after);
      && |log| == |ChatLog(m)| + 1
      && log[..|ChatLog(m)|] == ChatLog(m)
      && log[|log| - 1] == ChatMessage(user, Trim(rawText), pfp, timestamp)
      && after.Keys == m.Keys + {ChatKey}
      && forall key :: key in m && key != ChatKey ==> after[key] == m[key]
  {
    TrimEmptyIffAllSpace(rawText);
  }

  /** Sending keeps the store well formed, and leaves every record and the
      session alone. */
  lemma SendKeepsRecordsAndSession(m: Entries, user: string, pfp: Option<string>, rawText: string, timestamp: string,
                                   name: string)
    requires WellFormed(m)
    ensures var after := ChatSend(m, user, pfp, rawText, timestamp);
      && WellFormed(after)
      && StoredUser(after, name) == StoredUser(m, name)
      && Session(after) == Session(m)
  {
    ChatWriteKeepsWellFormed(m, ChatLog(m) + [ChatMessage(user, Trim(rawText), pfp, timestamp)]);
    UserKeyNotReserved(name);
  }

  /** The chat page: the name and the picture are read once, at start-up. */
  class ChatPage {
    const store: LocalStore
    const loggedInUser: string
    const pfp: Option<string>

    constructor (store: LocalStore)
      requires LoggedIn(store.entries)
      ensures this.store == store && loggedInUser == Session(store.entries).value
      ensures pfp == UserOrEmpty(store.entries, loggedInUser).pfp
    {
      this.store := store;
      loggedInUser := Session(store.entries).value;
      pfp := UserOrEmpty(store.entries, Session(store.entries).value).pfp;
    }

    /** The submit handler of the chat form. */
    method Send(rawText: string, timestamp: string)
      requires store.Valid()
      modifies store
      ensures store.Valid()
      ensures store.entries == ChatSend(old(store.entries), loggedInUser, pfp, rawText, timestamp)
    {
      SendKeepsRecordsAndSession(store.entries, loggedInUser, pfp, rawText, timestamp, loggedInUser);
      var text := Trim(rawText);
      if text == "" {
        return;
      }
      var messages := ChatLog(store.entries);
      messages := messages + [ChatMessage(loggedInUser, text, pfp, timestamp)];
      store.SetItem(ChatKey, Log(messages));
    }
  }
}
