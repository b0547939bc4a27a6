/** The three token tables and the operations on them. */
module TokenStores {
  import opened Options
  import opened OAuthData
  import opened Lifecycle

  /** What generateJWTToken returns, with the fields its callers add. */
  datatype NewToken = NewToken(jwt: Jwt, azCode: Option<Uid>, countDown: int)

  class Models {
    var codes: map<Uid, Code>
    var access: map<Uid, Access>
    var refresh: map<Uid, Refresh>
    var uids: Uid

    ghost function View(): Stores
      reads this
    { Stores(codes, access, refresh, uids) }

    /** Every identifier in use has been drawn. */
    ghost predicate Valid()
      reads this
    {
      && (forall c <- codes :: c < uids)
      && (forall a <- access :: a < uids)
      && (forall r <- refresh :: r < uids)
    }

    constructor ()
      ensures Valid() && View() == EMPTY_STORES
    {
      codes, access, refresh, uids := map[], map[], map[], 0;
    }

    /** A random identifier: one never drawn before. */
    method DrawUid() returns (id: Uid)
      requires Valid()
      modifies this`uids
      ensures Valid() && id == old(uids) && uids == id + 1
    {
      id := uids;
      uids := uids + 1;
    }

    method GenerateToken(clientId: string, ttl: int, now: Time) returns (t: NewToken)
      requires Valid()
      modifies this`uids
      ensures Valid() && uids == old(uids) + 2
      ensures t == NewToken(Jwt(old(uids), clientId, now, now + ttl * 1000, old(uids) + 1), None, 0)
    {
      var id := DrawUid();
      var secret := DrawUid();
      t := NewToken(Jwt(id, clientId, now, now + ttl * 1000, secret), None, 0);
    }

    method FindCode(apiId: string, id: Uid) returns (r: Option<Code>)
      ensures r.Some? <==> id in codes && codes[id].apiId == apiId
      ensures r.Some? ==> r.value == codes[id]
    {
      if id !in codes || codes[id].apiId != apiId { return None; }
      return Some(codes[id]);
    }

    method FindRefresh(apiId: string, id: Uid) returns (r: Option<Refresh>)
      ensures r.Some? <==> id in refresh && refresh[id].apiId == apiId
      ensures r.Some? ==> r.value == refresh[id]
    {
      if id !in refresh || refresh[id].apiId != apiId { return None; }
      return Some(refresh[id]);
    }

    method FindAccessById(id: Uid) returns (r: Option<Access>)
      ensures r.Some? <==> id in access
      ensures r.Some? ==> r.value == access[id]
    {
      if id !in access { return None; }
      return Some(access[id]);
    }

    method SaveCode(id: Uid, code: Code)
      requires Valid() && id < uids
      modifies this`codes
      ensures Valid() && codes == old(codes)[id := code]
    {
      codes := codes[id := code];
    }

    /** An undefined API id is dropped from the filter. */
    method DeleteCode(apiId: Option<string>, id: Uid)
      requires Valid()
      modifies this`codes
      ensures Valid()
      ensures codes == if id in old(codes) && (apiId.None? || apiId.value == old(codes)[id].apiId)
                       then old(codes) - {id} else old(codes)
    {
      codes := map c | c in codes && !(c == id && (apiId.None? || apiId.value == codes[c].apiId)) :: codes[c];
    }

    method DeleteRefresh(clientId: Option<string>, id: Uid)
      requires Valid()
      modifies this`refresh
      ensures Valid()
      ensures refresh == if id in old(refresh) && (clientId.None? || clientId.value == old(refresh)[id].appId)
                         then old(refresh) - {id} else old(refresh)
    {
      refresh := map r | r in refresh && !(r == id && (clientId.None? || clientId.value == refresh[r].appId)) ::
          refresh[r];
    }

    method DeleteByRefreshToken(clientId: string, id: Uid)
      requires Valid()
      modifies this`access
      ensures Valid()
      ensures forall a ::
          a in access
          <==> a in old(access) && !(old(access)[a].appId == clientId && old(access)[a].refreshToken == Some(id))
      ensures forall a <- access :: access[a] == old(access)[a]
    {
      access := map a | a in access && !(access[a].appId == clientId && access[a].refreshToken == Some(id)) ::
          access[a];
    }

    method PurgeAccess(now: Time)
      requires Valid()
      modifies this`access
      ensures Valid() && View() == Purge(old(View()), now, Purges(false, true, false))
    {
      access := map a | a in access && access[a].expiredAt > now :: access[a];
    }

    method PurgeRefresh(now: Time)
      requires Valid()
      modifies this`refresh
      ensures Valid() && View() == Purge(old(View()), now, Purges(false, false, true))
    {
      refresh := map r | r in refresh && refresh[r].expiredAt > now :: refresh[r];
    }

    method PurgeCodes(now: Time)
      requires Valid()
      modifies this`codes
      ensures Valid() && View() == Purge(old(View()), now, Purges(true, false, false))
    {
      codes := map c | c in codes && codes[c].expiredAt > now :: codes[c];
    }

    /** Save an access token and, first, its optional refresh token. */
    method SaveTokens(h: Holder, a: NewToken, r: Option<NewToken>)
      requires Valid() && a.jwt.jti < uids && (r.Some? ==> r.value.jwt.jti < uids)
      modifies this`access, this`refresh
      ensures Valid()
      ensures refresh == if r.None? then old(refresh)
                         else old(refresh)[r.value.jwt.jti :=
                           Refresh(h.apiId, h.appId, h.userId, h.scopes, h.grant, r.value.jwt.key, r.value.countDown,
                                   r.value.jwt.iat, r.value.jwt.exp)]
      ensures access == old(access)[a.jwt.jti :=
                          Access(h.apiId, h.appId, h.userId, h.scopes, h.grant, a.jwt.key, a.azCode,
                                 if r.None? then None else Some(r.value.jwt.jti), a.jwt.iat, a.jwt.exp)]
    {
      var link: Option<Uid> := None;
      if r.Some? {
        var t := r.value;
        refresh := refresh[t.jwt.jti := Refresh(h.apiId, h.appId, h.userId, h.scopes, h.grant, t.jwt.key, t.countDown,
                                                t.jwt.iat, t.jwt.exp)];
        link := Some(t.jwt.jti);
      }
      access := access[a.jwt.jti := Access(h.apiId, h.appId, h.userId, h.scopes, h.grant, a.jwt.key, a.azCode, link,
                                           a.jwt.iat, a.jwt.exp)];
    }
  }
}
