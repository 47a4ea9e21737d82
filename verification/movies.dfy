/** Now-playing movies and the random top-movie pick (src/movies.js). The
    clock, the API key, the two page responses and the stream of
    `Math.random()` values are parameters. */
module Movies {
  import opened Wrappers
  import opened Seqs
  import opened Text
  import opened Ranking
  import opened Http
  import opened Cache

  datatype Movie = Movie(
    title: string,
    overview: Option<string>,
    releaseDate: string,
    voteAverage: real,
    posterPath: Option<string>)

  /** What `getRandomTopMovies` returns per movie. */
  datatype MovieCard = MovieCard(
    title: string,
    overview: string,
    releaseDate: string,
    rating: real,
    posterUrl: Option<string>)

  const ImageBase: string := "https://image.tmdb.org/t/p/w500"
  const NoOverview: string := "No overview available."
  const OverviewLimit: nat := 120

  predicate IsRated(m: Movie) {
    m.voteAverage > 0.0
  }

  function Rating(m: Movie): real {
    m.voteAverage
  }

  /** A present, non-empty key (`process.env.TMDB_API_KEY` is truthy). */
  predicate HasKey(apiKey: Option<string>) {
    apiKey.Some? && apiKey.value != ""
  }

  /** What a cache miss of `fetchNowPlaying` yields: the key check first,
      then both pages, then the rated movies of page 1 followed by those of
      page 2. */
  function NowPlayingRefresh(apiKey: Option<string>, page1: Response<seq<Movie>>, page2: Response<seq<Movie>>)
    : Result<seq<Movie>, ApiError>
  {
    if !HasKey(apiKey) then Failure(MissingApiKey)
    else
      var first := Receive(Tmdb, page1);
      var second := Receive(Tmdb, page2);
      if first.Failure? then Failure(first.error)
      else if second.Failure? then Failure(second.error)
      else Success(Filter(first.value + second.value, IsRated))
  }

  /** `fetchNowPlaying()` at clock reading `now`. */
  function FetchNowPlaying(slot: Slot<seq<Movie>>, now: int, apiKey: Option<string>,
                           page1: Response<seq<Movie>>, page2: Response<seq<Movie>>)
    : (served: Served<seq<Movie>, ApiError>)
    ensures Fresh(slot, now) ==> served.result == Success(slot.data.value) && served.slot == slot
    ensures !Fresh(slot, now) && !HasKey(apiKey) ==> served.result == Failure(MissingApiKey) && served.slot == slot
    ensures served.result.Failure? ==> served.slot == slot
  {
    Read(slot, now, NowPlayingRefresh(apiKey, page1, page2))
  }

  /** The cache and key rules of `fetchNowPlaying`: a fresh slot is served
      even without a key; on a miss a missing key fails before any request,
      a failed page fails the call, and either failure leaves the slot as it
      was; otherwise the rated movies of page 1 then page 2 are returned and
      stored. */
  lemma FetchNowPlayingSpec(slot: Slot<seq<Movie>>, now: int, apiKey: Option<string>,
                            page1: Response<seq<Movie>>, page2: Response<seq<Movie>>)
    ensures var s := FetchNowPlaying(slot, now, apiKey, page1, page2);
      && (Fresh(slot, now) ==> s.result == Success(slot.data.value) && s.slot == slot)
      && (!Fresh(slot, now) && !HasKey(apiKey) ==> s.result == Failure(MissingApiKey) && s.slot == slot)
      && (!Fresh(slot, now) && HasKey(apiKey) && (!Ok(page1) || !Ok(page2)) ==>
            s.result.Failure? && s.slot == slot)
      && (!Fresh(slot, now) && HasKey(apiKey) && Ok(page1) && Ok(page2)
          && page1.body.Some? && page2.body.Some? ==>
            var movies := Filter(page1.body.value, IsRated) + Filter(page2.body.value, IsRated);
            s.result == Success(movies) && s.slot == Slot(Some(movies), now))
  {
    if page1.body.Some? && page2.body.Some? {
      FilterConcat(page1.body.value, page2.body.value, IsRated);
    }
  }

  /** A stream of `Math.random()` values, each in [0, 1). */
  ghost predicate ValidRandom(rand: nat -> real) {
    forall k: nat :: 0.0 <= rand(k) < 1.0
  }

  /** `Math.floor(r * (i + 1))`: a uniformly drawn position in [0, i]. */
  function DrawIndex(r: real, i: nat): (j: nat)
    requires 0.0 <= r < 1.0
    ensures j <= i
  {
    var n := (i + 1) as real;
    var x := r * n;
    assert 0.0 <= x by {
      assert r * n >= 0.0 * n;
    }
    assert x < n by {
      assert n - x == (1.0 - r) * n;
      assert (1.0 - r) * n > 0.0;
    }
    assert x.Floor as real <= x;
    x.Floor
  }

  /** The iterations of the Fisher-Yates loop from position `i` down to 1;
      `k` counts the random values already drawn. */
  function ShuffleFrom<T>(a: seq<T>, i: nat, k: nat, rand: nat -> real): (r: seq<T>)
    requires i < |a|
    requires ValidRandom(rand)
    ensures |r| == |a|
    ensures multiset(r) == multiset(a)
    decreases i
  {
    if i == 0 then a
    else
      var j := DrawIndex(rand(k), i);
      var swapped := a[i := a[j]][j := a[i]];
      assert multiset(swapped) == multiset(a);
      ShuffleFrom(swapped, i - 1, k + 1, rand)
  }

  /** `shuffle(arr)`: a rearrangement of `arr` chosen by the random stream. */
  function Shuffle<T>(a: seq<T>, rand: nat -> real): (r: seq<T>)
    requires ValidRandom(rand)
    ensures |r| == |a|
    ensures multiset(r) == multiset(a)
  {
    if |a| == 0 then a else ShuffleFrom(a, |a| - 1, 0, rand)
  }

  /** `Math.max(count * 3, 15)` */
  function PoolSize(count: int): int {
    if count * 3 < 15 then 15 else count * 3
  }

  /** The movies `getRandomTopMovies(count)` picks, before projection: the
      top `PoolSize(count)` by rating, shuffled, cut to `count`. */
  function PickMovies(movies: seq<Movie>, count: int, rand: nat -> real): (pick: seq<Movie>)
    requires ValidRandom(rand)
    ensures |pick| <= |movies|
    ensures count >= 0 ==> |pick| <= count
  {
    SliceTo(Shuffle(Pool(movies, count), rand), count)
  }

  /** The pick has `min(count, |movies|)` movies. */
  lemma PickMoviesLength(movies: seq<Movie>, count: int, rand: nat -> real)
    requires ValidRandom(rand)
    requires count >= 0
    ensures |PickMovies(movies, count, rand)| == if count < |movies| then count else |movies|
  {
  }

  /** The movies in the pool: the top `PoolSize(count)` by rating. */
  function Pool(movies: seq<Movie>, count: int): seq<Movie> {
    SliceTo(SortDesc(movies, Rating), PoolSize(count))
  }

  /** The pick is drawn from the pool without repetition, and the pool
      from the list. */
  lemma PickFromPool(movies: seq<Movie>, count: int, rand: nat -> real)
    requires ValidRandom(rand)
    ensures multiset(PickMovies(movies, count, rand)) <= multiset(Pool(movies, count))
    ensures multiset(Pool(movies, count)) <= multiset(movies)
  {
    var pool := Pool(movies, count);
    var shuffled := Shuffle(pool, rand);
    PrefixSubMultiset(SliceTo(shuffled, count), shuffled);
    PrefixSubMultiset(pool, SortDesc(movies, Rating));
  }

  /** The pick repeats no movie beyond the list, and each picked movie is
      within the top `PoolSize(count)` by rating: fewer than that many movies
      are rated strictly higher. */
  lemma {:induction false} PickMoviesFromTop(movies: seq<Movie>, count: int, rand: nat -> real)
    requires ValidRandom(rand)
    ensures multiset(PickMovies(movies, count, rand)) <= multiset(movies)
    ensures forall m | m in PickMovies(movies, count, rand) ::
      |Filter(movies, Above(Rating, Rating(m)))| < PoolSize(count)
  {
    var picked := PickMovies(movies, count, rand);
    PickFromPool(movies, count, rand);
    forall m | m in picked
      ensures |Filter(movies, Above(Rating, Rating(m)))| < PoolSize(count)
    {
      assert m in multiset(picked);
      assert m in multiset(Pool(movies, count));
      TopHasFewAbove(movies, Rating, PoolSize(count), m);
    }
  }

  /** The overview as shown: over 120 characters it is cut to 117 plus
      `...`; missing or empty it is replaced by a fixed text. */
  function Overview(overview: Option<string>): (r: string)
    ensures |r| <= OverviewLimit
    ensures overview.Some? && |overview.value| > OverviewLimit ==>
      |r| == OverviewLimit && r == overview.value[..117] + "..."
    ensures overview.Some? && 0 < |overview.value| <= OverviewLimit ==> r == overview.value
    ensures overview.None? || overview.value == "" ==> r == NoOverview
  {
    if overview.Some? && |overview.value| > OverviewLimit then overview.value[..117] + "..."
    else if overview.Some? && overview.value != "" then overview.value
    else NoOverview
  }

  /** Shortening is done once: an overview as shown is shown unchanged. */
  lemma OverviewIdempotent(overview: Option<string>)
    ensures Overview(Some(Overview(overview))) == Overview(overview)
  {
  }

  /** The poster link: none for a missing or empty path, else the image base
      followed by the path. */
  function PosterUrl(path: Option<string>): (r: Option<string>)
    ensures r.None? <==> path.None? || path.value == ""
    ensures r.Some? ==> StartsWith(r.value, ImageBase) && r.value[|ImageBase|..] == path.value
  {
    if path.Some? && path.value != "" then Some(ImageBase + path.value) else None
  }

  function Card(m: Movie): MovieCard {
    MovieCard(m.title, Overview(m.overview), m.releaseDate, m.voteAverage, PosterUrl(m.posterPath))
  }

  /** `getRandomTopMovies(count)`: the result and the cache slot afterwards. */
  datatype MoviesReply = MoviesReply(result: Result<seq<MovieCard>, ApiError>, slot: Slot<seq<Movie>>)

  function RandomTopMovies(slot: Slot<seq<Movie>>, now: int, apiKey: Option<string>,
                           page1: Response<seq<Movie>>, page2: Response<seq<Movie>>,
                           count: int, rand: nat -> real): (r: MoviesReply)
    requires ValidRandom(rand)
    ensures r.slot == FetchNowPlaying(slot, now, apiKey, page1, page2).slot
    ensures r.result.Failure? <==> FetchNowPlaying(slot, now, apiKey, page1, page2).result.Failure?
    ensures r.result.Success? ==>
      var picked := PickMovies(FetchNowPlaying(slot, now, apiKey, page1, page2).result.value, count, rand);
      |r.result.value| == |picked| && forall i | 0 <= i < |picked| :: r.result.value[i] == Card(picked[i])
  {
    var served := FetchNowPlaying(slot, now, apiKey, page1, page2);
    match served.result
    case Failure(e) => MoviesReply(Failure(e), served.slot)
    case Success(movies) =>
      var picked := PickMovies(movies, count, rand);
      MoviesReply(Success(seq(|picked|, i requires 0 <= i < |picked| => Card(picked[i]))), served.slot)
  }
}
