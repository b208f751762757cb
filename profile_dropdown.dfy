/**
 * The profile badge in the top bar: the avatar letter and the display name
 * derived from the signed-in user's name and email, and the open/closed flag
 * of its menu. `toUpperCase` is the parameter `toUpper`; the user is absent
 * (`null`) before sign-in, and then both texts render as nothing.
 */
module ProfileDropdown {
  import opened Seqs
  import opened Js

  datatype User = User(email: string, name: Option<string>)

  /**
   * The avatar text can be computed: without a non-empty name it reads
   * `email[0].toUpperCase()`, which throws on an empty email.
   */
  predicate AvatarDefined(user: Option<User>)
  {
    user.None? || Truthy(user.value.name) || user.value.email != ""
  }

  /** `user?.name ? user?.name[0].toUpperCase() : user?.email[0].toUpperCase()`. */
  function AvatarInitial(user: Option<User>, toUpper: string -> string): (r: string)
    requires AvatarDefined(user)
    ensures user.None? ==> r == ""
    ensures user.Some? ==> exists c :: (r == toUpper([c]) &&
      if Truthy(user.value.name) then StartsWith(user.value.name.value, [c]) else StartsWith(user.value.email, [c]))
  {
    if user.None? then ""
    else if Truthy(user.value.name) then
      assert StartsWith(user.value.name.value, [user.value.name.value[0]]);
      toUpper([user.value.name.value[0]])
    else
      assert StartsWith(user.value.email, [user.value.email[0]]);
      toUpper([user.value.email[0]])
  }

  /** `user?.name || user?.email.split('@')[0]`. */
  function DisplayName(user: Option<User>): (r: string)
    ensures user.None? ==> r == ""
    ensures user.Some? && Truthy(user.value.name) ==> r == user.value.name.value
    ensures user.Some? && !Truthy(user.value.name) ==>
      && StartsWith(user.value.email, r)
      && '@' !in r
      && (|r| == |user.value.email| || user.value.email[|r|] == '@')
  {
    if user.None? then ""
    else if Truthy(user.value.name) then user.value.name.value
    else Split(user.value.email, '@')[0]
  }

  /** Without a name, the display name is the local part of the email: everything before its first `@`. */
  lemma DisplayNameIsLocalPart(user: User)
    requires !Truthy(user.name)
    ensures DisplayName(Some(user)) == Before(user.email, '@')
    ensures '@' !in user.email ==> DisplayName(Some(user)) == user.email
  {
    if '@' !in user.email {
      assert |Before(user.email, '@')| == |user.email|;
    }
  }

  /**
   * The avatar shows the first letter of the display name, upper-cased,
   * whenever the display name is not empty.
   */
  lemma AvatarIsFirstLetterOfDisplayName(user: User, toUpper: string -> string)
    requires AvatarDefined(Some(user))
    requires DisplayName(Some(user)) != ""
    ensures AvatarInitial(Some(user), toUpper) == toUpper([DisplayName(Some(user))[0]])
  {
    var d := DisplayName(Some(user));
    if !Truthy(user.name) {
      assert d[0] == user.email[0];
    }
  }

  /** The menu's open flag, and the calls made to the `onLogout` callback. */
  class Menu {
    var isOpen: bool
    var logoutCalls: nat

    constructor()
      ensures !isOpen && logoutCalls == 0
    {
      isOpen := false;
      logoutCalls := 0;
    }

    /** The avatar button: opens a closed menu and closes an open one. */
    method Toggle()
      modifies this
      ensures isOpen == !old(isOpen) && logoutCalls == old(logoutCalls)
    {
      isOpen := !isOpen;
    }

    /** Choosing Profile, Settings or Help & Support. */
    method ChooseLink()
      modifies this
      ensures !isOpen && logoutCalls == old(logoutCalls)
    {
      isOpen := false;
    }

    /** Sign out: calls `onLogout` once, then closes the menu. */
    method SignOut()
      modifies this
      ensures logoutCalls == old(logoutCalls) + 1 && !isOpen
    {
      logoutCalls := logoutCalls + 1;
      isOpen := false;
    }
  }
}
