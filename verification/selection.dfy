/**
 The `postsWithAds` computation of the guest related-posts panel: prefer
 up to six recommended posts that have a thumbnail, fall back to the first
 six recommendations when fewer than six do, and, when ads are on, clear
 one pair of positions (chosen from a fixed table) to mark ad placements.
 Positions are written with JavaScript array semantics (section 10.4.2.1
 of ECMA-262): a write at or past the length grows the array and leaves
 holes at the skipped indices.
 */
module Selection {
  import opened Wrappers
  import opened Posts

  /** One array element: a post, `undefined` (render an ad), or a hole left by growth. */
  datatype Slot = Post(post: PartialPost) | Ad | Hole

  /** `data.post`: the post whose recommendations are shown. */
  datatype PostWithRecommendations = PostWithRecommendations(recommendedPosts: seq<PartialPost>)

  /** The query result; `post` is null when the post does not exist. */
  datatype QueryData = QueryData(post: Option<PostWithRecommendations>)

  const SlotCount: nat := 6

  /** Candidate ad positions; one pair is drawn uniformly at random. */
  const AdPairs: seq<(nat, nat)> :=
    [(0, 5), (0, 4), (0, 2), (1, 3), (1, 5), (2, 3), (2, 4), (3, 5)]

  /** The value of `Math.floor(Math.random() * indexes.length)`. */
  type PairChoice = k: nat | k < 8

  function Min(a: int, b: int): int { if a <= b then a else b }

  function Max(a: int, b: int): int { if a >= b then a else b }

  /** `indexes[k]`: two ordered, distinct positions inside the six-slot grid. */
  function AdPair(k: PairChoice): (pair: (nat, nat))
    ensures pair.0 < pair.1 < SlotCount
    ensures pair in AdPairs
  {
    AdPairs[k]
  }

  /** The table holds eight different pairs. */
  lemma AdPairsDistinct()
    ensures |AdPairs| == 8
    ensures forall i, j :: 0 <= i < j < |AdPairs| ==> AdPairs[i] != AdPairs[j]
  {
  }

  /** `recommended_posts.filter((post) => post.thumbnail)`. */
  function WithThumbnail(posts: seq<PartialPost>): (r: seq<PartialPost>)
    ensures |r| <= |posts|
    ensures forall j :: 0 <= j < |r| ==> Truthy(r[j].thumbnail)
  {
    if |posts| == 0 then []
    else if Truthy(posts[0].thumbnail) then [posts[0]] + WithThumbnail(posts[1..])
    else WithThumbnail(posts[1..])
  }

  /** Filtering distributes over concatenation. */
  lemma {:induction false} WithThumbnailAppend(a: seq<PartialPost>, b: seq<PartialPost>)
    ensures WithThumbnail(a + b) == WithThumbnail(a) + WithThumbnail(b)
    decreases |a|
  {
    if |a| == 0 {
      assert a + b == b;
    } else {
      assert (a + b)[0] == a[0];
      assert (a + b)[1..] == a[1..] + b;
      WithThumbnailAppend(a[1..], b);
    }
  }

  /**
   The filter keeps exactly the thumbnailed posts: everything it keeps comes
   from the input, and every thumbnailed post of the input is kept.
   */
  lemma {:induction false} WithThumbnailMembers(posts: seq<PartialPost>)
    ensures forall p :: p in WithThumbnail(posts) ==> p in posts && Truthy(p.thumbnail)
    ensures forall i :: 0 <= i < |posts| && Truthy(posts[i].thumbnail) ==> posts[i] in WithThumbnail(posts)
    decreases |posts|
  {
    if |posts| > 0 {
      WithThumbnailMembers(posts[1..]);
      assert posts == [posts[0]] + posts[1..];
      forall i | 1 <= i < |posts|
        ensures posts[i] == posts[1..][i - 1]
      {
      }
    }
  }

  /** A list whose every post has a thumbnail is kept whole by the filter. */
  lemma {:induction false} WithThumbnailKeepsAll(posts: seq<PartialPost>)
    requires forall i :: 0 <= i < |posts| ==> Truthy(posts[i].thumbnail)
    ensures WithThumbnail(posts) == posts
    decreases |posts|
  {
    if |posts| > 0 {
      WithThumbnailKeepsAll(posts[1..]);
      assert posts == [posts[0]] + posts[1..];
    }
  }

  /** The number of posts in `posts` whose thumbnail is truthy. */
  function ThumbnailCount(posts: seq<PartialPost>): nat
  {
    if |posts| == 0 then 0
    else (if Truthy(posts[0].thumbnail) then 1 else 0) + ThumbnailCount(posts[1..])
  }

  /** The filter keeps as many posts as there are thumbnailed ones. */
  lemma {:induction false} WithThumbnailLength(posts: seq<PartialPost>)
    ensures |WithThumbnail(posts)| == ThumbnailCount(posts)
    decreases |posts|
  {
    if |posts| > 0 {
      WithThumbnailLength(posts[1..]);
    }
  }

  /** The number of thumbnailed posts strictly before position `i`. */
  function Rank(posts: seq<PartialPost>, i: nat): nat
    requires i <= |posts|
  {
    ThumbnailCount(posts[..i])
  }

  /**
   Every thumbnailed post sits in the filtered list at its rank: the number
   of thumbnailed posts before it in the original order.
   */
  lemma WithThumbnailPosition(posts: seq<PartialPost>, i: nat)
    requires i < |posts| && Truthy(posts[i].thumbnail)
    ensures Rank(posts, i) < |WithThumbnail(posts)|
    ensures WithThumbnail(posts)[Rank(posts, i)] == posts[i]
  {
    WithThumbnailLength(posts[..i]);
    assert posts == posts[..i] + ([posts[i]] + posts[i + 1..]);
    WithThumbnailAppend(posts[..i], [posts[i]] + posts[i + 1..]);
    assert WithThumbnail([posts[i]] + posts[i + 1..]) == [posts[i]] + WithThumbnail(posts[i + 1..]);
  }

  /** Position `i` holds the thumbnailed post that the filtered list keeps at `j`. */
  predicate RankedAt(posts: seq<PartialPost>, i: int, j: int)
  {
    && 0 <= i < |posts| && Truthy(posts[i].thumbnail) && Rank(posts, i) == j
    && 0 <= j < |WithThumbnail(posts)| && WithThumbnail(posts)[j] == posts[i]
  }

  /** Filtering a list that starts with `p`. */
  lemma WithThumbnailCons(p: PartialPost, rest: seq<PartialPost>)
    ensures WithThumbnail([p] + rest)
      == (if Truthy(p.thumbnail) then [p] else []) + WithThumbnail(rest)
  {
    assert ([p] + rest)[0] == p;
    assert ([p] + rest)[1..] == rest;
  }

  /** Ranks in a list are the ranks in its tail, plus one when the head is thumbnailed. */
  lemma RankCons(posts: seq<PartialPost>, i: nat)
    requires 0 < |posts| && i < |posts|
    ensures Rank(posts, i + 1) == (if Truthy(posts[0].thumbnail) then 1 else 0) + Rank(posts[1..], i)
  {
    assert posts[..i + 1][1..] == posts[1..][..i];
  }

  /** Every entry of the filtered list is the thumbnailed post of that rank. */
  lemma {:induction false} WithThumbnailOrigin(posts: seq<PartialPost>, j: nat) returns (i: nat)
    requires j < |WithThumbnail(posts)|
    ensures RankedAt(posts, i, j)
    decreases |posts|
  {
    var rest := posts[1..];
    var head := if Truthy(posts[0].thumbnail) then 1 else 0;
    assert posts == [posts[0]] + rest;
    WithThumbnailCons(posts[0], rest);
    if head == 1 && j == 0 {
      i := 0;
      assert posts[..0] == [];
    } else {
      var i' := WithThumbnailOrigin(rest, j - head);
      i := i' + 1;
      RankCons(posts, i');
    }
  }

  /**
   The list before ads: the first six thumbnailed posts when there are at
   least six of them, otherwise the first six recommendations as they come.
   */
  function Preselect(posts: seq<PartialPost>): (r: seq<PartialPost>)
    ensures |r| == Min(SlotCount, |posts|)
    ensures forall p :: p in r ==> p in posts
    ensures |WithThumbnail(posts)| >= SlotCount ==> forall j :: 0 <= j < |r| ==> Truthy(r[j].thumbnail)
    ensures |WithThumbnail(posts)| < SlotCount ==> forall j :: 0 <= j < |r| ==> r[j] == posts[j]
  {
    var thumbnailed := WithThumbnail(posts);
    WithThumbnailMembers(posts);
    if |thumbnailed| < SlotCount then posts[..Min(SlotCount, |posts|)]
    else thumbnailed[..SlotCount]
  }

  /**
   With at least six thumbnailed posts, the list before ads is exactly the
   first six of them in original order: the post of rank `j` sits at
   position `j` for every rank below six.
   */
  lemma PreselectFirstSixThumbnailed(posts: seq<PartialPost>)
    requires |WithThumbnail(posts)| >= SlotCount
    ensures |Preselect(posts)| == SlotCount
    ensures forall i ::
      (0 <= i < |posts| && Truthy(posts[i].thumbnail) && Rank(posts, i) < SlotCount ==>
         Preselect(posts)[Rank(posts, i)] == posts[i])
  {
    forall i | 0 <= i < |posts| && Truthy(posts[i].thumbnail) && Rank(posts, i) < SlotCount
      ensures Preselect(posts)[Rank(posts, i)] == posts[i]
    {
      WithThumbnailPosition(posts, i);
    }
  }

  /**
   Conversely, with at least six thumbnailed posts every position `j` of the
   list before ads holds a thumbnailed post of rank `j`.
   */
  lemma PreselectOrigin(posts: seq<PartialPost>, j: nat) returns (i: nat)
    requires |WithThumbnail(posts)| >= SlotCount && j < SlotCount
    ensures RankedAt(posts, i, j) && Preselect(posts)[j] == posts[i]
  {
    i := WithThumbnailOrigin(posts, j);
  }

  /** A post list as array elements. */
  function AsSlots(posts: seq<PartialPost>): (r: seq<Slot>)
    ensures |r| == |posts|
    ensures forall j :: 0 <= j < |r| ==> r[j] == Post(posts[j])
  {
    seq(|posts|, j requires 0 <= j < |posts| => Post(posts[j]))
  }

  /** `a[i] = v` on a JavaScript array, as section 10.4.2.1 of ECMA-262 defines it. */
  function Assign(a: seq<Slot>, i: nat, v: Slot): (r: seq<Slot>)
    ensures |r| == Max(|a|, i + 1)
    ensures r[i] == v
    ensures forall j :: 0 <= j < |a| && j != i ==> r[j] == a[j]
    ensures forall j :: |a| <= j < i ==> r[j] == Hole
  {
    if i < |a| then a[i := v]
    else a + seq(i - |a|, _ => Hole) + [v]
  }

  /** The two writes of the drawn pair: both positions become `undefined`. */
  function PlaceAds(pre: seq<Slot>, k: PairChoice): (r: seq<Slot>)
    ensures |r| == Max(|pre|, AdPair(k).1 + 1)
    ensures r[AdPair(k).0] == Ad && r[AdPair(k).1] == Ad
    ensures forall j :: 0 <= j < |pre| && j != AdPair(k).0 && j != AdPair(k).1 ==> r[j] == pre[j]
    ensures forall j :: |pre| <= j < |r| && j != AdPair(k).0 && j != AdPair(k).1 ==> r[j] == Hole
  {
    var (first, second) := AdPair(k);
    Assign(Assign(pre, first, Ad), second, Ad)
  }

  predicate HasPost(data: Option<QueryData>)
  {
    data.Some? && data.value.post.Some?
  }

  /** The recommendations behind `data.post`, when there is one. */
  function Recommendations(data: Option<QueryData>): seq<PartialPost>
    requires HasPost(data)
  {
    data.value.post.value.recommendedPosts
  }

  /**
   The memoised `postsWithAds`: `None` (null) without a post, otherwise the
   pre-ad list, with the drawn pair cleared when ads are on.
   */
  function PostsWithAds(data: Option<QueryData>, showAds: bool, k: PairChoice): (r: Option<seq<Slot>>)
    ensures r.None? <==> !HasPost(data)
    ensures r.Some? ==> |r.value| <= SlotCount
    ensures r.Some? && !showAds ==>
      && |r.value| == Min(SlotCount, |Recommendations(data)|)
      && forall j :: 0 <= j < |r.value| ==> r.value[j].Post? && r.value[j].post in Recommendations(data)
    ensures r.Some? && showAds ==>
      |r.value| == Max(Min(SlotCount, |Recommendations(data)|), AdPair(k).1 + 1)
  {
    if !HasPost(data) then None
    else
      var pre := AsSlots(Preselect(Recommendations(data)));
      if !showAds then Some(pre) else Some(PlaceAds(pre, k))
  }

  /** Positions holding an ad. */
  function AdPositions(slots: seq<Slot>): set<nat>
  {
    set j: nat | j < |slots| && slots[j].Ad?
  }

  /** The number of ad elements is the number of ad positions. */
  lemma {:induction false} AdCountIsAdPositions(slots: seq<Slot>)
    ensures multiset(slots)[Ad] == |AdPositions(slots)|
    decreases |slots|
  {
    if |slots| > 0 {
      var last := |slots| - 1;
      var init := slots[..last];
      assert slots == init + [slots[last]];
      AdCountIsAdPositions(init);
      if slots[last].Ad? {
        assert AdPositions(slots) == AdPositions(init) + {last};
      } else {
        assert AdPositions(slots) == AdPositions(init);
      }
    }
  }

  /**
   Whenever there is a post and ads are on, the list holds exactly two ad
   elements, however short the recommendations are.
   */
  lemma AdsOnTwoAds(data: Option<QueryData>, k: PairChoice)
    requires HasPost(data)
    ensures multiset(PostsWithAds(data, true, k).value)[Ad] == 2
  {
    var slots := PostsWithAds(data, true, k).value;
    var (first, second) := AdPair(k);
    assert AdPositions(slots) == {first, second};
    AdCountIsAdPositions(slots);
  }

  /** With ads off, every slot is a post: no ad and no hole, at most six. */
  lemma NoAdsNoEmptySlots(data: Option<QueryData>, k: PairChoice)
    requires HasPost(data)
    ensures var slots := PostsWithAds(data, false, k).value;
      && |slots| == Min(SlotCount, |Recommendations(data)|)
      && AdPositions(slots) == {}
      && forall j :: 0 <= j < |slots| ==> slots[j] == Post(Preselect(Recommendations(data))[j])
  {
  }

  /**
   With ads on and a full list of six, exactly the two drawn positions
   become ads, no hole appears, and every other position keeps its post.
   */
  lemma AdsOnFullGrid(data: Option<QueryData>, k: PairChoice)
    requires HasPost(data) && |Recommendations(data)| >= SlotCount
    ensures var slots := PostsWithAds(data, true, k).value;
      var pre := Preselect(Recommendations(data));
      && |slots| == SlotCount
      && AdPositions(slots) == {AdPair(k).0, AdPair(k).1}
      && (forall j :: 0 <= j < SlotCount ==> !slots[j].Hole?)
      && (forall j :: 0 <= j < SlotCount && j != AdPair(k).0 && j != AdPair(k).1 ==> slots[j] == Post(pre[j]))
  {
  }

  /**
   With ads on and fewer than six posts, the array grows to cover the
   second drawn position: the drawn positions are ads, the kept posts stay
   where they were, and positions skipped by the growth are holes.
   */
  lemma AdsOnShortList(data: Option<QueryData>, k: PairChoice)
    requires HasPost(data) && |Recommendations(data)| < SlotCount
    ensures var slots := PostsWithAds(data, true, k).value;
      var n := |Recommendations(data)|;
      var (first, second) := AdPair(k);
      && |slots| == Max(n, second + 1)
      && AdPositions(slots) == {first, second}
      && (forall j :: 0 <= j < n && j != first && j != second ==> slots[j] == Post(Recommendations(data)[j]))
      && (forall j :: n <= j < |slots| && j != first && j != second ==> slots[j] == Hole)
  {
  }

  /**
   Seven recommendations of which the second and fifth have no thumbnail:
   only five are thumbnailed, so the first six recommendations are shown
   as they come.
   */
  lemma SparseThumbnailsExample(posts: seq<PartialPost>)
    requires |posts| == 7
    requires !Truthy(posts[1].thumbnail) && !Truthy(posts[4].thumbnail)
    requires forall i :: 0 <= i < 7 && i != 1 && i != 4 ==> Truthy(posts[i].thumbnail)
    ensures |WithThumbnail(posts)| == 5
    ensures Preselect(posts) == posts[..6]
  {
    assert posts == posts[..1] + [posts[1]] + posts[2..4] + [posts[4]] + posts[5..];
    WithThumbnailAppend(posts[..1] + [posts[1]] + posts[2..4] + [posts[4]], posts[5..]);
    WithThumbnailAppend(posts[..1] + [posts[1]] + posts[2..4], [posts[4]]);
    WithThumbnailAppend(posts[..1] + [posts[1]], posts[2..4]);
    WithThumbnailAppend(posts[..1], [posts[1]]);
  }

  /**
   Six thumbnailed recommendations, ads on, pair (2, 4) drawn: positions 2
   and 4 are ads and the other four keep their posts in order.
   */
  lemma FullGridPairTwoFourExample(data: Option<QueryData>)
    requires HasPost(data) && |Recommendations(data)| == 6
    requires forall i :: 0 <= i < 6 ==> Truthy(Recommendations(data)[i].thumbnail)
    ensures var p := Recommendations(data);
      PostsWithAds(data, true, 6)
        == Some([Post(p[0]), Post(p[1]), Ad, Post(p[3]), Ad, Post(p[5])])
  {
    var p := Recommendations(data);
    WithThumbnailKeepsAll(p);
    assert Preselect(p) == p;
    var r := PostsWithAds(data, true, 6).value;
    assert r == [Post(p[0]), Post(p[1]), Ad, Post(p[3]), Ad, Post(p[5])];
  }

  /**
   Three recommendations, ads on, pair (3, 5) drawn: the array grows to six,
   position 4 is a hole and positions 3 and 5 are ads.
   */
  lemma ShortListPairThreeFiveExample(data: Option<QueryData>)
    requires HasPost(data) && |Recommendations(data)| == 3
    ensures var p := Recommendations(data);
      PostsWithAds(data, true, 7)
        == Some([Post(p[0]), Post(p[1]), Post(p[2]), Ad, Hole, Ad])
  {
    var p := Recommendations(data);
    assert Preselect(p) == p;
    var r := PostsWithAds(data, true, 7).value;
    assert |r| == 6 && r[4] == Hole;
    assert r == [Post(p[0]), Post(p[1]), Post(p[2]), Ad, Hole, Ad];
  }
}

