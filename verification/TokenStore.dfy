/** The phone's token store: a cache in memory over secure storage, and the one
    refresh callers share. */
module TokenStore {
  import opened Prelude
  import Session

  /** A token pair is named by the number of its refresh token. */
  datatype TokenSet = TokenSet(token: Option<nat>, username: Option<nat>)

  const EMPTY := TokenSet(None, None)

  /** What the fetch came to: an HTTP status with the pair in the body, if there
      is one, or no response at all. */
  datatype Response = Response(status: int, pair: Option<nat>) | NoResponse

  predicate Refuses(r: Response) {
    r.Response? && (r.status == 401 || r.status == 403)
  }

  function GrantedBy(r: Response): Option<nat> {
    if r.Response? && 200 <= r.status < 300 then r.pair else None
  }

  class Store {
    var cache: TokenSet
    var stored: TokenSet
    var refreshing: bool
    var heard: seq<TokenSet>

    constructor ()
      ensures cache == EMPTY && stored == EMPTY && !refreshing && heard == []
    {
      cache, stored, refreshing, heard := EMPTY, EMPTY, false, [];
    }

    method Notify()
      modifies `heard
      ensures heard == old(heard) + [cache]
    {
      heard := heard + [cache];
    }

    method HydrateTokenStore() returns (tokens: TokenSet)
      modifies `cache
      ensures cache == stored == tokens
    {
      cache := stored;
      tokens := cache;
    }

    method SetTokens(next: TokenSet)
      modifies `cache, `stored, `heard
      ensures cache == stored == next && heard == old(heard) + [next]
    {
      cache := next;
      stored := next;
      Notify();
    }

    method SetRefreshedTokens(token: nat)
      modifies `cache, `stored, `heard
      ensures cache == old(cache).(token := Some(token)) && stored == old(stored).(token := Some(token))
      ensures heard == old(heard) + [cache]
    {
      cache := cache.(token := Some(token));
      stored := stored.(token := Some(token));
      Notify();
    }

    method ClearTokens()
      modifies `cache, `stored, `heard
      ensures cache == stored == EMPTY && heard == old(heard) + [EMPTY]
    {
      cache := EMPTY;
      stored := EMPTY;
      Notify();
    }

    /** A refresh nobody else is running.  `response` is what the fetch will come
        to when there is a token to send. */
    method RefreshAccessToken(response: Response) returns (sent: Option<nat>, result: Option<nat>)
      requires !refreshing
      modifies this
      ensures !refreshing
      ensures sent == if old(cache).token.Some? then old(cache).token else old(stored).token
      ensures result == if sent.None? then None else GrantedBy(response)
      ensures sent.Some? && Refuses(response) ==> cache == stored == EMPTY && heard == old(heard) + [EMPTY]
      ensures result.Some? ==>
                cache == old(cache).(token := result) && stored == old(stored).(token := result)
                  && heard == old(heard) + [cache]
      ensures sent.None? || (!Refuses(response) && result.None?) ==>
                cache == old(cache) && stored == old(stored) && heard == old(heard)
      // The same by status: signed out on 401 and 403 alone, a new token on a 2xx
      // with a pair alone, and otherwise nothing changes.
      ensures sent.Some? && old(stored).token.Some? ==>
                (cache == stored == EMPTY <==> response.Response? && (response.status == 401 || response.status == 403))
      ensures result.Some? <==>
                sent.Some? && response.Response? && 200 <= response.status <= 299 && response.pair.Some?
      ensures result.Some? ==> result == response.pair
      ensures sent.None? || response.NoResponse?
              || (response.status != 401 && response.status != 403
                  && (response.status < 200 || 299 < response.status || response.pair.None?)) ==>
                cache == old(cache) && stored == old(stored) && heard == old(heard)
    {
      refreshing := true;
      sent := cache.token;
      if sent.None? { sent := stored.token; }
      if sent.None? {
        refreshing := false;
        return sent, None;
      }
      result := None;
      if response.Response? {
        if response.status == 401 || response.status == 403 {
          ClearTokens();
        } else if 200 <= response.status < 300 && response.pair.Some? {
          SetRefreshedTokens(response.pair.value);
          result := response.pair;
        }
      }
      refreshing := false;
    }
  }

  /** How the phone hears what became of a request in `phase`. */
  predicate Carries(response: Response, phase: Session.Phase) {
    match phase
    case Granted(next) => GrantedBy(response) == Some(next)
    case Denied => Refuses(response)
    case Broken(_) => !Refuses(response) && GrantedBy(response).None?
    case _ => false
  }

  /** In the protocol's words: a refresh is refused by a 401 or a 403, granted by a 2xx
      with a pair, and broken off by anything else. */
  lemma CarriesExactly(response: Response, phase: Session.Phase)
    ensures phase.Denied? ==>
              (Carries(response, phase) <==> response.Response? && (response.status == 401 || response.status == 403))
    ensures phase.Granted? ==>
              (Carries(response, phase) <==>
                 response.Response? && 200 <= response.status <= 299 && response.pair == Some(phase.next))
    ensures phase.Broken? ==>
              (Carries(response, phase) <==>
                 || response.NoResponse?
                 || (response.status != 401 && response.status != 403
                     && (response.status < 200 || 299 < response.status || response.pair.None?)))
  {
  }

  /** The steps a refresh takes when nothing comes between asking, the answer and
      saving it. */
  function Answered(w: Session.World, i: nat): Session.World {
    var v := Session.Next(w, Session.Deliver(i));
    if i < |v.calls| && v.calls[i].Saving? then Session.Next(v, Session.Save(i))
    else if i < |v.calls| && v.calls[i].Clearing? then Session.Next(v, Session.Wipe(i))
    else v
  }

  /** An uninterrupted refresh of the protocol ends as the method does: it tells
      its callers what the method returns and leaves the tokens the method
      leaves. */
  lemma UninterruptedRefresh(w: Session.World, i: nat, response: Response)
    requires Session.Inv(w) && Session.SessionOk(w) && Session.Enabled(w, Session.Deliver(i))
    requires Carries(response, w.requests[w.calls[i].request].phase)
    ensures var v := Answered(w, i);
            && |v.calls| > i && v.calls[i] == Session.Settled(GrantedBy(response))
            && v.stored == (if Refuses(response) then None
                            else if GrantedBy(response).Some? then GrantedBy(response) else w.stored)
            && v.cache == (if Refuses(response) then None
                           else if GrantedBy(response).Some? then GrantedBy(response) else w.cache)
            && v.user == (if Refuses(response) then None else w.user)
            && w.requests[w.calls[i].request].token == (if w.cache.Some? then w.cache else w.stored).Or(0)
  {
    Session.OnlyTheLastCallRuns(w, i);
  }
}
