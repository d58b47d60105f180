/**
 * The simulated session of the site header: who is logged in is whatever
 * user record local storage holds under `animeUserLoggedIn`; logging in
 * looks the entered name up, ignoring case, first among the last registered
 * user and then against a built-in default user; the password is never looked at.
 */
module Auth {
  import opened Wrappers
  import opened JsString
  import opened Storage

  const SessionKey: string := "animeUserLoggedIn"
  const RegisteredKey: string := "lastRegisteredUser"

  /** A user record as stored: `{username, email}`. */
  datatype User = User(username: string, email: string)

  const DefaultUser: User := User("AnimeFan2025", "fan@anime.fr")

  /** `getLoggedInUser`: the session's user, `null` when no session is stored. */
  function GetLoggedInUser(store: LocalStorage<User>): (r: Option<User>)
    reads store
    ensures r.None? <==> SessionKey !in store.entries
    ensures r.Some? ==> r.value == store.entries[SessionKey]
  {
    if SessionKey in store.entries then Some(store.entries[SessionKey]) else None
  }

  /** The record under `lastRegisteredUser`, if any. */
  function RegisteredUser(store: LocalStorage<User>): (r: Option<User>)
    reads store
    ensures r.None? <==> RegisteredKey !in store.entries
    ensures r.Some? ==> r.value == store.entries[RegisteredKey]
  {
    if RegisteredKey in store.entries then Some(store.entries[RegisteredKey]) else None
  }

  /**
   * `logout`: removes the session key and nothing else, then sends the
   * browser to the home page, whose address is returned.
   */
  method Logout(store: LocalStorage<User>) returns (target: string)
    modifies store
    ensures store.entries == old(store.entries) - {SessionKey}
    ensures GetLoggedInUser(store).None?
    ensures target == "index.html"
  {
    store.entries := store.entries - {SessionKey};
    target := "index.html";
  }

  /** `registered` names the entered user, ignoring case. */
  predicate RegisteredMatches(registered: Option<User>, entered: string) {
    registered.Some? && SameIgnoringCase(registered.value.username, entered)
  }

  /**
   * The user `simulateLogin` settles on: the registered user when its name
   * matches, ignoring case; else the default user when its name matches;
   * else nobody.
   */
  function UserToLog(registered: Option<User>, entered: string): (r: Option<User>)
    ensures RegisteredMatches(registered, entered) ==> r == registered
    ensures !RegisteredMatches(registered, entered) && SameIgnoringCase(DefaultUser.username, entered) ==>
              r == Some(DefaultUser)
    ensures r.None? <==> !RegisteredMatches(registered, entered) && !SameIgnoringCase(DefaultUser.username, entered)
    ensures r.Some? ==> SameIgnoringCase(r.value.username, entered)
  {
    if RegisteredMatches(registered, entered) then registered
    else if SameIgnoringCase(DefaultUser.username, entered) then Some(DefaultUser)
    else None
  }

  /**
   * `simulateLogin`. The password is taken and never consulted. On failure it
   * returns false and storage is untouched; on success the chosen user is
   * stored under the session key, which is the only key written.
   */
  method SimulateLogin(store: LocalStorage<User>, enteredUsername: string, enteredPassword: string)
    returns (success: bool)
    modifies store
    ensures success <==> UserToLog(old(RegisteredUser(store)), enteredUsername).Some?
    ensures !success ==> store.entries == old(store.entries)
    ensures success ==>
              store.entries == old(store.entries)[SessionKey := UserToLog(old(RegisteredUser(store)), enteredUsername).value]
    ensures success ==> GetLoggedInUser(store) == UserToLog(old(RegisteredUser(store)), enteredUsername)
  {
    var registeredUser := if RegisteredKey in store.entries then Some(store.entries[RegisteredKey]) else None;
    var userToLog: Option<User> := None;
    var entry := ToLower(enteredUsername);
    if registeredUser.Some? {
      if ToLower(registeredUser.value.username) == entry {
        userToLog := registeredUser;
      }
    }
    if userToLog.None? && ToLower(DefaultUser.username) == entry {
      userToLog := Some(DefaultUser);
    }
    if userToLog.None? {
      return false;
    }
    store.entries := store.entries[SessionKey := userToLog.value];
    return true;
  }

  /** Two spellings that lower-case alike log in the same user. */
  lemma UserToLogIgnoresCase(registered: Option<User>, a: string, b: string)
    requires ToLower(a) == ToLower(b)
    ensures UserToLog(registered, a) == UserToLog(registered, b)
  {
  }

  /** Lower-casing the entered name first changes nothing. */
  lemma UserToLogOfLowered(registered: Option<User>, entered: string)
    ensures UserToLog(registered, ToLower(entered)) == UserToLog(registered, entered)
  {
    ToLowerIdempotent(entered);
    UserToLogIgnoresCase(registered, ToLower(entered), entered);
  }

  /** A registered user who took the default user's name shadows the default user. */
  lemma RegisteredShadowsDefault(registered: User, entered: string)
    requires SameIgnoringCase(registered.username, DefaultUser.username)
    requires SameIgnoringCase(DefaultUser.username, entered)
    ensures UserToLog(Some(registered), entered) == Some(registered)
  {
  }

  /** The default user logs in whatever the case of the entered name. */
  lemma DefaultUserInAnyCase(entered: string)
    requires entered == "ANIMEFAN2025"
    ensures UserToLog(None, entered) == Some(DefaultUser)
  {
    var d := DefaultUser.username;
    assert ToLower(d) == ToLower(entered) by {
      assert |d| == |entered|;
      forall k | 0 <= k < |d|
        ensures LowerChar(d[k]) == LowerChar(entered[k])
      {
      }
    }
  }
}
