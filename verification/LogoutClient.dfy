/**
 Blocking logout (apps/web/lib/logoutClient.ts): revoke the server session with at most
 two attempts, and only then wipe the user's data and sign out.
 */
module LogoutClient {
  import opened AuthClient

  const LOGOUT_ATTEMPTS: nat := 2

  const USER_PII_STORAGE_KEYS := [
    "rp_address_book",
    "rsends.pendingMerge",
    "rsend_antiphishing_code",
    "rp_pending_queue",
    "rp_compliance_db"
  ]

  /** What belongs to the user. */
  const PERSONAL: set<string> := {
    "rp_address_book", "rsends.pendingMerge", "rsend_antiphishing_code", "rp_pending_queue", "rp_compliance_db"
  }

  /** The keys a wipe removes where removing `throws` fails. */
  function Removed(throws: string -> bool): set<string> {
    set k | k in PERSONAL && !throws(k)
  }

  predicate Confirms(r: HttpResult) {
    r.Answered? && 200 <= r.status <= 299
  }

  /** What a client shows of its session: both web storages, and whether signOut was called. */
  class Session {
    var local: map<string, string>
    var perTab: map<string, string>
    var signOuts: nat

    constructor (local: map<string, string>, perTab: map<string, string>)
      ensures this.local == local && this.perTab == perTab && signOuts == 0
    {
      this.local, this.perTab, this.signOuts := local, perTab, 0;
    }

    /** `answers` is what the endpoint would answer, attempt by attempt. */
    method RevokeBackendSession(answers: seq<HttpResult>) returns (ok: bool, attempts: nat)
      requires |answers| >= 2
      ensures ok <==> Confirms(answers[0]) || Confirms(answers[1])
      ensures 1 <= attempts <= 2
      ensures forall i | 0 <= i < attempts - 1 :: !Confirms(answers[i])
      ensures ok ==> Confirms(answers[attempts - 1])
      ensures !ok ==> attempts == 2
    {
      for attempt := 0 to LOGOUT_ATTEMPTS
        invariant forall i | 0 <= i < attempt :: !Confirms(answers[i])
      {
        if answers[attempt].Answered? && IsOk(answers[attempt].status) {
          return true, attempt + 1;
        }
      }
      return false, LOGOUT_ATTEMPTS;
    }

    /**
     A key goes from the first storage and then from the second; where the first removal
     throws, the second is skipped.
     */
    method ClearUserPiiStorage(localThrows: string -> bool, perTabThrows: string -> bool)
      modifies this`local, this`perTab
      ensures local == old(local) - Removed(localThrows)
      ensures perTab == old(perTab) - Removed(k => localThrows(k) || perTabThrows(k))
    {
      for i := 0 to |USER_PII_STORAGE_KEYS|
        invariant local == old(local) - set k | k in USER_PII_STORAGE_KEYS[..i] && !localThrows(k)
        invariant perTab == old(perTab) - set k | k in USER_PII_STORAGE_KEYS[..i] && !localThrows(k) && !perTabThrows(k)
      {
        var key := USER_PII_STORAGE_KEYS[i];
        assert USER_PII_STORAGE_KEYS[..i + 1] == USER_PII_STORAGE_KEYS[..i] + [key];
        if !localThrows(key) {
          local := local - {key};
          if !perTabThrows(key) {
            perTab := perTab - {key};
          }
        }
      }
      assert USER_PII_STORAGE_KEYS[..|USER_PII_STORAGE_KEYS|] == USER_PII_STORAGE_KEYS;
      assert forall k :: k in USER_PII_STORAGE_KEYS <==> k in PERSONAL;
    }

    /**
     Never a half-logout: without a confirmed revocation (or the skipBackend path)
     nothing on this side changes.
     */
    method PerformLogout(skipBackend: bool, answers: seq<HttpResult>, localThrows: string -> bool,
          perTabThrows: string -> bool)
      returns (ok: bool)
      requires |answers| >= 2
      modifies this
      ensures ok <==> skipBackend || Confirms(answers[0]) || Confirms(answers[1])
      ensures signOuts == old(signOuts) + (if ok then 1 else 0)
      ensures !ok ==> local == old(local) && perTab == old(perTab)
      ensures ok ==> local == old(local) - Removed(localThrows)
      ensures ok ==> perTab == old(perTab) - Removed(k => localThrows(k) || perTabThrows(k))
    {
      if !skipBackend {
        var revoked, _ := RevokeBackendSession(answers);
        if !revoked {
          return false;
        }
      }
      ClearUserPiiStorage(localThrows, perTabThrows);
      signOuts := signOuts + 1;
      ok := true;
    }
  }
}
