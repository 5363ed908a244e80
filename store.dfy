/**
 * The browser's local storage as the page handlers use it: a map from string
 * keys to stored values, with the site's key conventions
 * (`user_<name>`, `loggedInUser`, `chat_messages`) and the records kept under them.
 */
module Store {

  datatype Option<T> = None | Some(value: T)

  /** A stored user object. Every field is optional because the profile page
      writes back whatever object it loaded, and it loads `{}` when the record
      is missing. */
  datatype UserRecord = UserRecord(
    username: Option<string>,
    email: Option<string>,
    password: Option<string>,
    pfp: Option<string>,
    description: Option<string>)

  /** The object `JSON.parse('{}')` yields. */
  const EmptyRecord := UserRecord(None, None, None, None, None)

  /** One entry of the chat log; the timestamp is an opaque ISO-8601 string. */
  datatype ChatMessage = ChatMessage(username: string, text: string, pfp: Option<string>, timestamp: string)

  /** What a key holds once decoded: a user record, a plain string, or the chat log. */
  datatype Value = Record(user: UserRecord) | Plain(text: string) | Log(messages: seq<ChatMessage>)

  type Entries = map<string, Value>

  const SessionKey: string := "loggedInUser"
  const ChatKey: string := "chat_messages"

  function UserKey(name: string): string {
    "user_" + name
  }

  /** Different names give different record keys. */
  lemma UserKeyInjective(a: string, b: string)
    ensures UserKey(a) == UserKey(b) ==> a == b
  {
    if UserKey(a) == UserKey(b) {
      assert a == UserKey(a)[5..];
    }
  }

  /** No record key is the session key or the chat key. */
  lemma UserKeyNotReserved(name: string)
    ensures UserKey(name) != SessionKey && UserKey(name) != ChatKey
  {
    assert UserKey(name)[0] == 'u';
  }

  /** The shape every handler leaves the store in: records under record keys,
      a string under the session key and a message list under the chat key.
      Other keys (the theme preference, say) are unconstrained. */
  ghost predicate WellFormed(m: Entries) {
    && (SessionKey in m ==> m[SessionKey].Plain?)
    && (ChatKey in m ==> m[ChatKey].Log?)
    && (forall name :: UserKey(name) in m ==> m[UserKey(name)].Record?)
  }

  /** The record stored for `name`, if any. */
  function StoredUser(m: Entries, name: string): Option<UserRecord> {
    if UserKey(name) in m && m[UserKey(name)].Record? then Some(m[UserKey(name)].user) else None
  }

  /** `JSON.parse(localStorage.getItem('user_' + name) || '{}')` */
  function UserOrEmpty(m: Entries, name: string): UserRecord {
    match StoredUser(m, name)
    case Some(r) => r
    case None => EmptyRecord
  }

  /** `localStorage.getItem('loggedInUser')` */
  function Session(m: Entries): Option<string> {
    if SessionKey in m && m[SessionKey].Plain? then Some(m[SessionKey].text) else None
  }

  /** The session value is truthy: present and not the empty string. */
  predicate LoggedIn(m: Entries) {
    Session(m).Some? && Session(m).value != ""
  }

  /** `JSON.parse(localStorage.getItem('chat_messages') || '[]')` */
  function ChatLog(m: Entries): seq<ChatMessage> {
    if ChatKey in m && m[ChatKey].Log? then m[ChatKey].messages else []
  }

  /** Writing a record under a record key keeps the store well formed. */
  lemma RecordWriteKeepsWellFormed(m: Entries, name: string, r: UserRecord)
    requires WellFormed(m)
    ensures WellFormed(m[UserKey(name) := Record(r)])
  {
    UserKeyNotReserved(name);
  }

  /** Writing a name under the session key keeps the store well formed. */
  lemma SessionWriteKeepsWellFormed(m: Entries, name: string)
    requires WellFormed(m)
    ensures WellFormed(m[SessionKey := Plain(name)])
  {
    forall other | UserKey(other) in m[SessionKey := Plain(name)]
      ensures m[SessionKey := Plain(name)][UserKey(other)].Record?
    {
      UserKeyNotReserved(other);
    }
  }

  /** Writing a message list under the chat key keeps the store well formed. */
  lemma ChatWriteKeepsWellFormed(m: Entries, log: seq<ChatMessage>)
    requires WellFormed(m)
    ensures WellFormed(m[ChatKey := Log(log)])
  {
    forall other | UserKey(other) in m[ChatKey := Log(log)]
      ensures m[ChatKey := Log(log)][UserKey(other)].Record?
    {
      UserKeyNotReserved(other);
    }
  }

  /** What a handler reports, and the store it leaves behind. */
  datatype Step<O> = Step(outcome: O, after: Entries)

  /** The storage facade the handlers write through. */
  class LocalStore {
    var entries: Entries

    ghost predicate Valid()
      reads this
    {
      WellFormed(entries)
    }

    constructor (initial: Entries)
      requires WellFormed(initial)
      ensures Valid() && entries == initial
    {
      entries := initial;
    }

    /** `localStorage.setItem(key, value)` */
    method SetItem(key: string, v: Value)
      modifies this
      ensures entries == old(entries)[key := v]
    {
      entries := entries[key := v];
    }

    /** `localStorage.removeItem(key)` */
    method RemoveItem(key: string)
      modifies this
      ensures entries == old(entries) - {key}
    {
      entries := entries - {key};
    }
  }
}
