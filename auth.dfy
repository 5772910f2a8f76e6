/**
 * The admin panel's client-side login: one fixed credential pair and a
 * token kept under one key of the browser's local storage. Outside a
 * browser (no `window`) every read yields nothing and every write is
 * skipped.
 */
module Auth {
  import opened Wrappers

  const AdminUsername: string := "admin"
  const AdminPassword: string := "admin123"
  /** The local-storage key of the token. */
  const TokenKey: string := "admin_token"
  /** The token value `login` stores and `isAuthenticated` looks for. */
  const AuthenticatedToken: string := "admin_authenticated"

  /** `validateCredentials`. */
  predicate ValidateCredentials(username: string, password: string) {
    username == AdminUsername && password == AdminPassword
  }

  /** Exactly one credential pair is accepted. */
  lemma OneCredentialPair(u: string, p: string, u': string, p': string)
    ensures ValidateCredentials(AdminUsername, AdminPassword)
    ensures ValidateCredentials(u, p) && ValidateCredentials(u', p') ==> u == u' && p == p'
    ensures u != AdminUsername || p != AdminPassword ==> !ValidateCredentials(u, p)
  {
  }

  /** The browser's local storage as seen by these helpers. */
  class TokenStore {
    /** `typeof window !== 'undefined'`. */
    const hasWindow: bool
    var storage: map<string, string>

    constructor(inBrowser: bool, initial: map<string, string>)
      ensures hasWindow == inBrowser && storage == initial
    {
      hasWindow := inBrowser;
      storage := initial;
    }

    /** `getAuthToken`: null outside a browser or when nothing is stored. */
    function GetAuthToken(): (t: Option<string>)
      reads this
      ensures !hasWindow ==> t == None
      ensures hasWindow ==> (t.Some? <==> TokenKey in storage) && (t.Some? ==> t.value == storage[TokenKey])
    {
      if hasWindow && TokenKey in storage then Some(storage[TokenKey]) else None
    }

    /** `isAuthenticated`. */
    predicate IsAuthenticated()
      reads this
    {
      GetAuthToken() == Some(AuthenticatedToken)
    }

    /** Only the exact token value authenticates, and never outside a browser. */
    lemma AuthenticatedIffToken()
      ensures IsAuthenticated() <==> hasWindow && TokenKey in storage && storage[TokenKey] == AuthenticatedToken
      ensures !hasWindow ==> !IsAuthenticated()
    {
    }

    /** `setAuthToken`. */
    method SetAuthToken(token: string)
      modifies this
      ensures storage == if hasWindow then old(storage)[TokenKey := token] else old(storage)
    {
      if hasWindow {
        storage := storage[TokenKey := token];
      }
    }

    /** `removeAuthToken`. */
    method RemoveAuthToken()
      modifies this
      ensures storage == if hasWindow then old(storage) - {TokenKey} else old(storage)
    {
      if hasWindow {
        storage := storage - {TokenKey};
      }
    }

    /** `login`: the result is the credential check; only a success writes the token. */
    method Login(username: string, password: string) returns (ok: bool)
      modifies this
      ensures ok == ValidateCredentials(username, password)
      ensures ok ==> storage == if hasWindow then old(storage)[TokenKey := AuthenticatedToken] else old(storage)
      ensures !ok ==> storage == old(storage)
      ensures ok && hasWindow ==> IsAuthenticated()
      ensures !ok ==> IsAuthenticated() == old(IsAuthenticated())
    {
      if ValidateCredentials(username, password) {
        SetAuthToken(AuthenticatedToken);
        return true;
      }
      return false;
    }

    /**
     * `logout`: afterwards nobody is authenticated and other keys are kept;
     * once the token is gone a further logout changes nothing.
     */
    method Logout()
      modifies this
      ensures !IsAuthenticated()
      ensures storage == if hasWindow then old(storage) - {TokenKey} else old(storage)
      ensures forall k :: k != TokenKey ==> (k in storage <==> k in old(storage))
      ensures !hasWindow || TokenKey !in old(storage) ==> storage == old(storage)
    {
      RemoveAuthToken();
    }
  }
}
