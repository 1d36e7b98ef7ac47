/** The share endpoint: an in-memory map of location snapshots that expire
    48 hours after creation, swept before every create and every fetch, and
    the base-URL rule used to build links. Clock and ids are parameters;
    times are milliseconds. */
module ShareRoute {
  import opened Json
  import opened Strings

  /** 48 hours in milliseconds. */
  const ShareLifetime: int := 48 * 60 * 60 * 1000

  const MissingLocationError := "缺少位置数据"
  const CreateFailedError := "创建分享失败"
  const MissingIdError := "缺少分享ID"
  const NotFoundError := "分享内容不存在或已过期"

  datatype ShareContent = ShareContent(id: string, locationData: JsonValue, timestamp: int, expiresAt: int)

  datatype ShareCreated = ShareCreated(shareId: string, shareUrl: string, expiresAt: int)

  /** What the base URL is built from: the `NEXT_PUBLIC_BASE_URL` variable
      and the `host` and `x-forwarded-proto` request headers. */
  datatype UrlContext = UrlContext(baseUrlEnv: Option<string>, host: Option<string>, forwardedProto: Option<string>)

  predicate Present(s: Option<string>) {
    s.Some? && s.value != []
  }

  /** `getBaseUrl`: the environment variable when set; else
      `protocol://host` from the headers, the protocol defaulting to
      `https`; else `http://localhost:3000`. */
  function BaseUrl(ctx: UrlContext): (url: string)
    ensures Present(ctx.baseUrlEnv) ==> url == ctx.baseUrlEnv.value
    ensures !Present(ctx.baseUrlEnv) && Present(ctx.host) ==>
      url == (if Present(ctx.forwardedProto) then ctx.forwardedProto.value else "https") + "://" + ctx.host.value
    ensures !Present(ctx.baseUrlEnv) && !Present(ctx.host) ==> url == "http://localhost:3000"
  {
    if Present(ctx.baseUrlEnv) then ctx.baseUrlEnv.value
    else
      var protocol := if Present(ctx.forwardedProto) then ctx.forwardedProto.value else "https";
      if Present(ctx.host) then protocol + "://" + ctx.host.value
      else "http://localhost:3000"
  }

  /** Without the variable, a request with a host and no forwarded protocol
      gets an `https://` link and one without a host gets the local default;
      the variable wins over any header. */
  lemma BaseUrlPrecedence(ctx: UrlContext)
    ensures !Present(ctx.baseUrlEnv) && Present(ctx.host) && !Present(ctx.forwardedProto) ==>
      StartsWith(BaseUrl(ctx), "https://")
    ensures Present(ctx.baseUrlEnv) ==> BaseUrl(ctx) == BaseUrl(ctx.(host := None, forwardedProto := None))
  {
    if !Present(ctx.baseUrlEnv) && Present(ctx.host) && !Present(ctx.forwardedProto) {
      assert BaseUrl(ctx) == "https://" + ctx.host.value;
      assert BaseUrl(ctx)[..8] == "https://";
    }
  }

  /** Expired at `now`: strictly before it. */
  predicate Expired(content: ShareContent, now: int) {
    content.expiresAt < now
  }

  /** The shares a sweep at `now` keeps. */
  function Unexpired(m: map<string, ShareContent>, now: int): map<string, ShareContent> {
    map k | k in m && !Expired(m[k], now) :: m[k]
  }

  function UnexpiredExcept(m: map<string, ShareContent>, pending: set<string>, now: int): map<string, ShareContent> {
    map k | k in m && (k in pending || !Expired(m[k], now)) :: m[k]
  }

  lemma UnexpiredExceptStep(m: map<string, ShareContent>, pending: set<string>, k: string, now: int)
    requires k in pending && k in m
    ensures UnexpiredExcept(m, pending - {k}, now) ==
      if Expired(m[k], now) then UnexpiredExcept(m, pending, now) - {k} else UnexpiredExcept(m, pending, now)
  {
  }

  /** The snapshot a create stores: the request's location data spread into
      a new object with `shareId` added. */
  function NewShare(locationData: JsonValue, shareId: string, now: int): ShareContent {
    ShareContent(shareId, SpreadWith(locationData, "shareId", JString(shareId)), now, now + ShareLifetime)
  }

  class ShareStore {
    var shares: map<string, ShareContent>

    constructor ()
      ensures shares == map[]
    {
      shares := map[];
    }

    /** `cleanupExpiredShares`: deletes exactly the shares whose expiry lies
        before `now`. */
    method CleanupExpiredShares(now: int)
      modifies this
      ensures shares == Unexpired(old(shares), now)
    {
      ghost var original := shares;
      var ids := shares.Keys;
      while ids != {}
        invariant shares == UnexpiredExcept(original, ids, now)
        invariant ids <= shares.Keys
        decreases |ids|
      {
        var id :| id in ids;
        UnexpiredExceptStep(original, ids, id, now);
        if shares[id].expiresAt < now {
          shares := shares - {id};
        }
        ids := ids - {id};
      }
      assert shares == Unexpired(original, now);
    }

    /** POST: a body that is not JSON (or is `null`) is a 500 and a missing
        `locationData` a 400, both before the sweep, so neither changes the
        store. Otherwise the store is swept and the new share stored under
        `shareId`, expiring 48 hours after `now`; the reply carries the link
        and that same expiry. */
    method Post(body: Body, shareId: string, now: int, ctx: UrlContext) returns (reply: Reply<ShareCreated>)
      modifies this
      ensures !Destructurable(body) ==> reply == Failure(500, CreateFailedError) && shares == old(shares)
      ensures Destructurable(body) && !Truthy(Field(body, "locationData")) ==>
        reply == Failure(400, MissingLocationError) && shares == old(shares)
      ensures Destructurable(body) && Truthy(Field(body, "locationData")) ==>
        shares == Unexpired(old(shares), now)[shareId := NewShare(Field(body, "locationData").value, shareId, now)] &&
        reply == Success(ShareCreated(shareId, BaseUrl(ctx) + "/share/" + shareId, now + ShareLifetime))
    {
      if !Destructurable(body) {
        return Failure(500, CreateFailedError);
      }
      var locationData := Field(body, "locationData");
      if !Truthy(locationData) {
        return Failure(400, MissingLocationError);
      }
      CleanupExpiredShares(now);
      var expiresAt := now + ShareLifetime;
      var content := ShareContent(shareId, SpreadWith(locationData.value, "shareId", JString(shareId)), now, expiresAt);
      shares := shares[shareId := content];
      var baseUrl := BaseUrl(ctx);
      var shareUrl := baseUrl + "/share/" + shareId;
      reply := Success(ShareCreated(shareId, shareUrl, expiresAt));
    }

    /** GET: a missing or empty `id` is a 400 and leaves the store alone;
        otherwise the store is swept first and the id is looked up in what
        is left, so an expired share reads as 404. */
    method Get(id: Option<string>, now: int) returns (reply: Reply<ShareContent>)
      modifies this
      ensures !Present(id) ==> reply == Failure(400, MissingIdError) && shares == old(shares)
      ensures Present(id) ==>
        shares == Unexpired(old(shares), now) &&
        reply == (if id.value in shares then Success(shares[id.value]) else Failure(404, NotFoundError))
    {
      if !Present(id) {
        return Failure(400, MissingIdError);
      }
      CleanupExpiredShares(now);
      if id.value in shares {
        reply := Success(shares[id.value]);
      } else {
        reply := Failure(404, NotFoundError);
      }
    }
  }

  /** A sweep keeps a share exactly when its expiry is not before `now` (one
      expiring at `now` stays), and sweeping twice is sweeping once. */
  lemma SweepProperties(m: map<string, ShareContent>, now: int)
    ensures forall k :: k in Unexpired(m, now) <==> k in m && m[k].expiresAt >= now
    ensures Unexpired(Unexpired(m, now), now) == Unexpired(m, now)
  {
    assert Unexpired(Unexpired(m, now), now).Keys == Unexpired(m, now).Keys;
  }

  /** A share found after a sweep at `now` has not expired, and one that
      expired before `now` is not found, even if it was still stored. */
  lemma FetchAfterSweep(m: map<string, ShareContent>, id: string, now: int)
    ensures id in Unexpired(m, now) ==> Unexpired(m, now)[id] == m[id] && m[id].expiresAt >= now
    ensures id in m && m[id].expiresAt < now ==> id !in Unexpired(m, now)
  {
  }

  /** A share created at `created` is still found by a fetch at any time up
      to 48 hours later, provided nothing else overwrote its id; its stored
      location data carries its own id. */
  lemma CreatedShareReadable(m: map<string, ShareContent>, locationData: JsonValue, shareId: string, created: int, now: int)
    requires now <= created + ShareLifetime
    ensures var stored := Unexpired(m, created)[shareId := NewShare(locationData, shareId, created)];
      shareId in Unexpired(stored, now) &&
      Unexpired(stored, now)[shareId].id == shareId &&
      Unexpired(stored, now)[shareId].locationData.fields["shareId"] == JString(shareId)
  {
  }
}
