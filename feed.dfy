/**
 * The Instagram section (`InstagramFeed`): which posts are shown, from the
 * mock list, the `localStorage` cache or the configured endpoint, and how
 * the cache is kept.
 *
 * `localStorage` is a map from keys to strings. The clock (`Date.now()`),
 * the outcome of the HTTP request and `JSON.stringify`/`JSON.parse` on post
 * lists are parameters. The online/offline listeners are left out.
 */
module Feed {
  import opened Wrappers
  import opened Text

  /** A post as the section renders it; `image` is `undefined` when the API gave neither URL. */
  datatype Post = Post(id: string, image: Option<string>, caption: string, link: string)

  /** A post as the endpoint returns it; `None` is an absent field. */
  datatype ApiPost = ApiPost(
    id: string,
    mediaUrl: Option<string>,
    image: Option<string>,
    caption: Option<string>,
    permalink: Option<string>)

  /** What `fetch(apiEndpoint)` and `response.json()` produce: the post list, or an error (network, non-2xx status, body that is not a list). */
  datatype FetchOutcome = Failure | Success(data: seq<ApiPost>)

  /** `JSON.stringify` and `JSON.parse` for post lists; `parse` gives `None` where `JSON.parse` throws. */
  datatype Codec = Codec(stringify: seq<Post> -> string, parse: string -> Option<seq<Post>>)

  /**
   * What the cache relies on: a stored list parses back to itself, and the
   * JSON text of a list is never empty (it is at least `[]`).
   */
  ghost predicate Faithful(codec: Codec) {
    && (forall ps :: codec.parse(codec.stringify(ps)) == Some(ps))
    && (forall ps :: codec.stringify(ps) != "")
  }

  const PostsKey := "instagram_posts"
  const TimeKey := "instagram_posts_time"
  const ThirtyMinutes := 30 * 60 * 1000

  const MockPosts: seq<Post> := [
    Post("1", Some(""), "Magical birthday celebration 🎉", "#"),
    Post("2", Some(""), "Disney theme perfection ✨", "#"),
    Post("3", Some(""), "Superhero party vibes 💥", "#"),
    Post("4", Some(""), "Retro 80s party setup 🎸", "#"),
    Post("5", Some(""), "Beautiful party table 🎂", "#"),
    Post("6", Some(""), "Fun party games for kids 🎮", "#")
  ]

  /** A string value that JavaScript treats as true: present and non-empty. */
  predicate Truthy(s: Option<string>) {
    s.Some? && s.value != ""
  }

  /** `localStorage.getItem(key)`; `None` is `null`. */
  function GetItem(storage: map<string, string>, key: string): (r: Option<string>)
    ensures r.Some? <==> key in storage
    ensures r.Some? ==> r.value == storage[key]
  {
    if key in storage then Some(storage[key]) else None
  }

  // ---------------------------------------------------------------------------
  // the cache policy

  /** `Date.now() - parseInt(cacheTime) < thirtyMinutes`; a time that does not parse (`NaN`) is never fresh. */
  function CacheFresh(cacheTime: string, now: int): (r: bool)
    ensures r <==> ParseInt(cacheTime).Some? && now < ParseInt(cacheTime).value + ThirtyMinutes
  {
    match ParseInt(cacheTime)
    case None => false
    case Some(t) => now - t < ThirtyMinutes
  }

  /** The cache branch is taken: both keys hold non-empty values and the time is fresh. */
  function UsesCache(storage: map<string, string>, now: int): (r: bool)
    ensures r <==> && PostsKey in storage && storage[PostsKey] != ""
                   && TimeKey in storage && storage[TimeKey] != ""
                   && CacheFresh(storage[TimeKey], now)
  {
    && Truthy(GetItem(storage, PostsKey))
    && Truthy(GetItem(storage, TimeKey))
    && CacheFresh(storage[TimeKey], now)
  }

  /** The two `setItem` calls after a successful fetch. */
  function StoreWrite(storage: map<string, string>, codec: Codec, posts: seq<Post>, time: int): (r: map<string, string>)
    ensures r.Keys == storage.Keys + {PostsKey, TimeKey}
    ensures forall k :: k in storage && k != PostsKey && k != TimeKey ==> r[k] == storage[k]
  {
    storage[PostsKey := codec.stringify(posts)][TimeKey := IntToString(time)]
  }

  /** The two `removeItem` calls of `refreshFeed`. */
  function StoreClear(storage: map<string, string>): (r: map<string, string>)
    ensures r.Keys == storage.Keys - {PostsKey, TimeKey}
    ensures forall k :: k in r ==> r[k] == storage[k]
  {
    storage - {PostsKey, TimeKey}
  }

  /**
   * What a successful fetch writes is read back by a later fetch within
   * thirty minutes: the cache branch is taken, it shows the same posts and
   * reports the time of the write.
   */
  lemma CacheRoundTrip(storage: map<string, string>, codec: Codec, posts: seq<Post>, time: int, now: int)
    requires Faithful(codec)
    requires now - time < ThirtyMinutes
    ensures var s := StoreWrite(storage, codec, posts, time);
      UsesCache(s, now) && codec.parse(s[PostsKey]) == Some(posts) && ParseInt(s[TimeKey]) == Some(time)
  {
    ParseIntOfIntToString(time, "");
    assert IntToString(time) + "" == IntToString(time);
  }

  /** A cache written at `time` is fresh strictly before thirty minutes have passed, and stale from then on. */
  lemma FreshnessWindow(time: int, now: int)
    ensures CacheFresh(IntToString(time), now) <==> now < time + ThirtyMinutes
  {
    ParseIntOfIntToString(time, "");
    assert IntToString(time) + "" == IntToString(time);
  }

  /** After `refreshFeed` clears the keys, the cache branch cannot be taken. */
  lemma ClearedCacheUnused(storage: map<string, string>, now: int)
    ensures !UsesCache(StoreClear(storage), now)
    ensures GetItem(StoreClear(storage), PostsKey) == None
  {
  }

  // ---------------------------------------------------------------------------
  // the transform

  /** A falsy field replaced by `fallback`. */
  function OrElse(s: Option<string>, fallback: string): (r: string)
    ensures Truthy(s) ==> r == s.value
    ensures !Truthy(s) ==> r == fallback
  {
    if Truthy(s) then s.value else fallback
  }

  /** One post of the response in the section's format. */
  function TransformPost(post: ApiPost): (r: Post)
    ensures r.id == post.id
    ensures Truthy(post.mediaUrl) ==> r.image == post.mediaUrl
    ensures !Truthy(post.mediaUrl) ==> r.image == post.image
    ensures r.caption == "" <==> !Truthy(post.caption)
    ensures Truthy(post.caption) ==> r.caption == post.caption.value
    ensures r.link != ""
    ensures Truthy(post.permalink) ==> r.link == post.permalink.value
    ensures !Truthy(post.permalink) ==> r.link == "#"
  {
    Post(
      post.id,
      if Truthy(post.mediaUrl) then post.mediaUrl else post.image,
      OrElse(post.caption, ""),
      OrElse(post.permalink, "#"))
  }

  /** `data.map(...)`: the response in order, post by post. */
  function TransformPosts(data: seq<ApiPost>): (r: seq<Post>)
    ensures |r| == |data|
    ensures forall i :: 0 <= i < |data| ==> r[i] == TransformPost(data[i])
  {
    if data == [] then [] else [TransformPost(data[0])] + TransformPosts(data[1..])
  }

  // ---------------------------------------------------------------------------
  // the section's state

  class InstagramFeed {
    /** `VITE_IG_ENDPOINT`, or `''` when it is not configured. */
    const endpoint: string
    var posts: seq<Post>
    var isLoading: bool
    /** The milliseconds of `lastFetch`, or `None` before the first load. */
    var lastFetch: Option<int>
    var storage: map<string, string>

    constructor (endpoint: string, storage: map<string, string>)
      ensures this.endpoint == endpoint && this.storage == storage
      ensures posts == MockPosts && !isLoading && lastFetch == None
    {
      this.endpoint := endpoint;
      this.storage := storage;
      posts := MockPosts;
      isLoading := false;
      lastFetch := None;
    }

    /**
     * `fetchInstagramPosts`. `now` is `Date.now()` before the request and
     * `later` the clock after it; `rejected` says the returned promise
     * rejects because `JSON.parse` threw on the cached text.
     */
    method FetchInstagramPosts(now: int, outcome: FetchOutcome, later: int, codec: Codec) returns (rejected: bool)
      modifies this`posts, this`isLoading, this`lastFetch, this`storage
      // no endpoint: the mock list, and the cache is neither read nor written
      ensures endpoint == "" ==>
        posts == MockPosts && lastFetch == Some(now) && !rejected &&
        storage == old(storage) && isLoading == old(isLoading)
      // the cache branch
      ensures endpoint != "" && UsesCache(old(storage), now) ==>
        storage == old(storage) && isLoading == old(isLoading) &&
        match codec.parse(old(storage)[PostsKey])
        case Some(cachedPosts) => posts == cachedPosts && lastFetch == ParseInt(old(storage)[TimeKey]) && !rejected
        case None => rejected && posts == old(posts) && lastFetch == old(lastFetch)
      // a successful request: the transformed list, written to both keys
      ensures endpoint != "" && !UsesCache(old(storage), now) && outcome.Success? ==>
        posts == TransformPosts(outcome.data) && lastFetch == Some(later) && !isLoading && !rejected &&
        storage == StoreWrite(old(storage), codec, posts, later)
      // a failed request: the cached text read before, if any, else the mock list
      ensures endpoint != "" && !UsesCache(old(storage), now) && outcome.Failure? ==>
        storage == old(storage) && lastFetch == old(lastFetch) && !isLoading &&
        if !Truthy(GetItem(old(storage), PostsKey)) then posts == MockPosts && !rejected
        else match codec.parse(old(storage)[PostsKey])
          case Some(cachedPosts) => posts == cachedPosts && !rejected
          case None => rejected && posts == old(posts)
    {
      rejected := false;
      if endpoint == "" {
        posts := MockPosts;
        lastFetch := Some(now);
        return;
      }
      var cached := GetItem(storage, PostsKey);
      var cacheTime := GetItem(storage, TimeKey);
      if Truthy(cached) && Truthy(cacheTime) {
        if CacheFresh(cacheTime.value, now) {
          var parsed := codec.parse(cached.value);
          if parsed.None? {
            rejected := true;
            return;
          }
          posts := parsed.value;
          lastFetch := ParseInt(cacheTime.value);
          return;
        }
      }
      isLoading := true;
      if outcome.Success? {
        var transformed := TransformPosts(outcome.data);
        posts := transformed;
        lastFetch := Some(later);
        storage := storage[PostsKey := codec.stringify(transformed)];
        storage := storage[TimeKey := IntToString(later)];
      } else if Truthy(cached) {
        var parsed := codec.parse(cached.value);
        if parsed.None? {
          rejected := true;
        } else {
          posts := parsed.value;
        }
      } else {
        posts := MockPosts;
      }
      isLoading := false;
    }

    /**
     * `refreshFeed`: removes both keys, then fetches. With an endpoint the
     * request is always made, and a failed one shows the mock list, since
     * the cached text is gone.
     */
    method RefreshFeed(now: int, outcome: FetchOutcome, later: int, codec: Codec) returns (rejected: bool)
      modifies this`posts, this`isLoading, this`lastFetch, this`storage
      ensures endpoint == "" ==> posts == MockPosts && lastFetch == Some(now) && storage == StoreClear(old(storage))
      ensures endpoint != "" && outcome.Success? ==>
        posts == TransformPosts(outcome.data) && lastFetch == Some(later) &&
        storage == StoreWrite(StoreClear(old(storage)), codec, posts, later)
      ensures endpoint != "" && outcome.Failure? ==>
        posts == MockPosts && lastFetch == old(lastFetch) && storage == StoreClear(old(storage))
      ensures !rejected
      ensures endpoint != "" ==> !isLoading
    {
      storage := storage - {PostsKey};
      storage := storage - {TimeKey};
      assert storage == StoreClear(old(storage));
      ClearedCacheUnused(old(storage), now);
      rejected := FetchInstagramPosts(now, outcome, later, codec);
    }
  }
}
