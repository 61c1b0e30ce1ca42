/**
 What the panel shows for a slot list: nothing at all when there is no
 list, otherwise one card per array element that `map` visits. `map`
 skips holes, so a hole renders nothing; `undefined` renders an ad and a
 post renders its card (with the excerpt on the mobile layout only).
 */
module Render {
  import opened Wrappers
  import opened Posts
  import opened Selection
  import Excerpt

  /** `imageSource` is the URL before it goes through the image optimiser. */
  datatype Card =
    | PostCard(title: string, imageSource: string, excerpt: Option<string>)
    | AdCard(mobile: bool)

  function CardFor(p: PartialPost, isMobile: bool, defaultAvatar: string): Card
  {
    PostCard(
      p.title,
      ImageSource(p, defaultAvatar),
      if isMobile then Some(Excerpt.ExcerptText(p.shortDescription)) else None)
  }

  /** The card `map` produces for one element; a hole is never visited. */
  function SlotCard(s: Slot, isMobile: bool, defaultAvatar: string): Option<Card>
  {
    match s
    case Hole => None
    case Ad => Some(AdCard(isMobile))
    case Post(p) => Some(CardFor(p, isMobile, defaultAvatar))
  }

  function HoleCount(slots: seq<Slot>): nat
  {
    if |slots| == 0 then 0
    else (if slots[0].Hole? then 1 else 0) + HoleCount(slots[1..])
  }

  /** `postsWithAds.map(...)`, with the holes `map` never visits dropped. */
  function Cards(slots: seq<Slot>, isMobile: bool, defaultAvatar: string): (r: seq<Card>)
    ensures |r| + HoleCount(slots) == |slots|
  {
    if |slots| == 0 then []
    else
      var rest := Cards(slots[1..], isMobile, defaultAvatar);
      assert slots == [slots[0]] + slots[1..];
      match SlotCard(slots[0], isMobile, defaultAvatar)
      case None => rest
      case Some(c) => [c] + rest
  }

  /** Every ad element becomes an ad card and nothing else does. */
  lemma {:induction false} CardsKeepAds(slots: seq<Slot>, isMobile: bool, defaultAvatar: string)
    ensures multiset(Cards(slots, isMobile, defaultAvatar))[AdCard(isMobile)] == multiset(slots)[Ad]
    decreases |slots|
  {
    if |slots| > 0 {
      CardsKeepAds(slots[1..], isMobile, defaultAvatar);
      assert slots == [slots[0]] + slots[1..];
    }
  }

  /** Rendering a concatenation renders each part in turn. */
  lemma {:induction false} CardsAppend(a: seq<Slot>, b: seq<Slot>, isMobile: bool, defaultAvatar: string)
    ensures Cards(a + b, isMobile, defaultAvatar) == Cards(a, isMobile, defaultAvatar) + Cards(b, isMobile, defaultAvatar)
    decreases |a|
  {
    if |a| == 0 {
      assert a + b == b;
    } else {
      assert (a + b)[0] == a[0];
      assert (a + b)[1..] == a[1..] + b;
      CardsAppend(a[1..], b, isMobile, defaultAvatar);
    }
  }

  /**
   Every element that is not a hole renders, in order, as its own card: the
   card of element `j` sits after one card for each non-hole element before
   it, that is at `j` minus the holes before `j`.
   */
  lemma CardsVisit(slots: seq<Slot>, j: nat, isMobile: bool, defaultAvatar: string)
    requires j < |slots| && !slots[j].Hole?
    ensures HoleCount(slots[..j]) <= j && j - HoleCount(slots[..j]) < |Cards(slots, isMobile, defaultAvatar)|
    ensures Cards(slots, isMobile, defaultAvatar)[j - HoleCount(slots[..j])]
      == SlotCard(slots[j], isMobile, defaultAvatar).value
  {
    var m, d := isMobile, defaultAvatar;
    assert slots == slots[..j] + ([slots[j]] + slots[j + 1..]);
    CardsAppend(slots[..j], [slots[j]] + slots[j + 1..], m, d);
    CardsCons(slots[j], slots[j + 1..], m, d);
    assert |Cards(slots[..j], m, d)| + HoleCount(slots[..j]) == j;
  }

  /** One unfolding of `Cards`. */
  lemma CardsCons(s: Slot, rest: seq<Slot>, isMobile: bool, defaultAvatar: string)
    ensures Cards([s] + rest, isMobile, defaultAvatar)
      == (if s.Hole? then [] else [SlotCard(s, isMobile, defaultAvatar).value]) + Cards(rest, isMobile, defaultAvatar)
  {
    assert ([s] + rest)[0] == s;
    assert ([s] + rest)[1..] == rest;
  }

  /** Without holes, the card at each position is the one for the slot there. */
  lemma {:induction false} CardsWithoutHoles(slots: seq<Slot>, isMobile: bool, defaultAvatar: string)
    requires HoleCount(slots) == 0
    ensures var r := Cards(slots, isMobile, defaultAvatar);
      && |r| == |slots|
      && forall j :: 0 <= j < |slots| ==>
        SlotCard(slots[j], isMobile, defaultAvatar) == Some(r[j])
    decreases |slots|
  {
    if |slots| > 0 {
      CardsWithoutHoles(slots[1..], isMobile, defaultAvatar);
      var r := Cards(slots, isMobile, defaultAvatar);
      var rest := Cards(slots[1..], isMobile, defaultAvatar);
      assert r[1..] == rest;
      forall j | 1 <= j < |slots|
        ensures r[j] == rest[j - 1]
      {
      }
    }
  }

  /** `if (!postsWithAds) return null;` then the cards; an empty array is truthy. */
  function Panel(postsWithAds: Option<seq<Slot>>, isMobile: bool, defaultAvatar: string): (r: Option<seq<Card>>)
    ensures r.None? <==> postsWithAds.None?
    ensures r.Some? ==> |r.value| <= |postsWithAds.value|
  {
    match postsWithAds
    case None => None
    case Some(slots) => Some(Cards(slots, isMobile, defaultAvatar))
  }

  /** The whole component for one render, given the query data and the drawn pair. */
  function RelatedPostsForGuest(
    data: Option<QueryData>, showAds: bool, k: PairChoice, isMobile: bool, defaultAvatar: string
  ): (r: Option<seq<Card>>)
    ensures r.None? <==> !HasPost(data)
    ensures r.Some? ==> |r.value| <= SlotCount
  {
    Panel(PostsWithAds(data, showAds, k), isMobile, defaultAvatar)
  }

  lemma {:induction false} NoHolesInPosts(posts: seq<PartialPost>)
    ensures HoleCount(AsSlots(posts)) == 0
    decreases |posts|
  {
    if |posts| > 0 {
      assert AsSlots(posts)[1..] == AsSlots(posts[1..]);
      NoHolesInPosts(posts[1..]);
    }
  }

  /**
   A post is present but has no recommendations and ads are off: the panel
   renders (heading included) with no card, since `[]` is truthy.
   */
  lemma EmptyRecommendationsRenderEmptyPanel(data: Option<QueryData>, k: PairChoice, isMobile: bool, defaultAvatar: string)
    requires HasPost(data) && Recommendations(data) == []
    ensures RelatedPostsForGuest(data, false, k, isMobile, defaultAvatar) == Some([])
  {
  }

  /**
   With ads off, the panel shows one post card per selected post, in the
   selected order, and no ad card.
   */
  lemma NoAdsCards(data: Option<QueryData>, k: PairChoice, isMobile: bool, defaultAvatar: string)
    requires HasPost(data)
    ensures var cards := RelatedPostsForGuest(data, false, k, isMobile, defaultAvatar).value;
      var pre := Preselect(Recommendations(data));
      && |cards| == |pre|
      && forall j :: 0 <= j < |cards| ==> cards[j] == CardFor(pre[j], isMobile, defaultAvatar)
  {
    var pre := Preselect(Recommendations(data));
    NoHolesInPosts(pre);
    CardsWithoutHoles(AsSlots(pre), isMobile, defaultAvatar);
  }

  /**
   With ads off and at least six thumbnailed recommendations, every card's
   image is the post's own thumbnail, which is non-empty.
   */
  lemma ThumbnailedGridShowsOwnThumbnails(data: Option<QueryData>, k: PairChoice, isMobile: bool, defaultAvatar: string)
    requires HasPost(data) && |WithThumbnail(Recommendations(data))| >= SlotCount
    ensures var cards := RelatedPostsForGuest(data, false, k, isMobile, defaultAvatar).value;
      var pre := Preselect(Recommendations(data));
      && |cards| == SlotCount
      && forall j :: 0 <= j < SlotCount ==>
        cards[j].PostCard? && cards[j].imageSource == pre[j].thumbnail.value && cards[j].imageSource != ""
  {
    NoAdsCards(data, k, isMobile, defaultAvatar);
  }

  /**
   With ads on and six posts available, the panel shows exactly six cards:
   ad cards at the two drawn positions and post cards everywhere else.
   */
  lemma AdsOnFullGridCards(data: Option<QueryData>, k: PairChoice, isMobile: bool, defaultAvatar: string)
    requires HasPost(data) && |Recommendations(data)| >= SlotCount
    ensures var cards := RelatedPostsForGuest(data, true, k, isMobile, defaultAvatar).value;
      var pre := Preselect(Recommendations(data));
      && |cards| == SlotCount
      && forall j :: 0 <= j < SlotCount ==>
        if j == AdPair(k).0 || j == AdPair(k).1 then cards[j] == AdCard(isMobile)
        else cards[j] == CardFor(pre[j], isMobile, defaultAvatar)
  {
    var slots := PostsWithAds(data, true, k).value;
    AdsOnFullGrid(data, k);
    NoHolesInSlots(slots);
    CardsWithoutHoles(slots, isMobile, defaultAvatar);
  }

  lemma {:induction false} NoHolesInSlots(slots: seq<Slot>)
    requires forall j :: 0 <= j < |slots| ==> !slots[j].Hole?
    ensures HoleCount(slots) == 0
    decreases |slots|
  {
    if |slots| > 0 {
      NoHolesInSlots(slots[1..]);
    }
  }

  /**
   With a post and ads on, exactly two ad cards render, whatever pair is
   drawn and however few recommendations there are.
   */
  lemma AdsOnTwoAdCards(data: Option<QueryData>, k: PairChoice, isMobile: bool, defaultAvatar: string)
    requires HasPost(data)
    ensures multiset(RelatedPostsForGuest(data, true, k, isMobile, defaultAvatar).value)[AdCard(isMobile)] == 2
  {
    AdsOnTwoAds(data, k);
    CardsKeepAds(PostsWithAds(data, true, k).value, isMobile, defaultAvatar);
  }

  /** The cards for three posts followed by an ad, a hole and an ad. */
  lemma CardsAroundHole(p0: PartialPost, p1: PartialPost, p2: PartialPost, isMobile: bool, defaultAvatar: string)
    ensures Cards([Post(p0), Post(p1), Post(p2), Ad, Hole, Ad], isMobile, defaultAvatar) == [
      CardFor(p0, isMobile, defaultAvatar), CardFor(p1, isMobile, defaultAvatar),
      CardFor(p2, isMobile, defaultAvatar), AdCard(isMobile), AdCard(isMobile)]
  {
    var m, d := isMobile, defaultAvatar;
    var ad := AdCard(m);
    var c0, c1, c2 := CardFor(p0, m, d), CardFor(p1, m, d), CardFor(p2, m, d);
    var s5: seq<Slot> := [Ad];
    var s4 := [Hole] + s5;
    var s3 := [Ad] + s4;
    var s2 := [Post(p2)] + s3;
    var s1 := [Post(p1)] + s2;
    var s0 := [Post(p0)] + s1;
    assert Cards(s5, m, d) == [ad] by {
      CardsCons(Ad, [], m, d);
      assert [Ad] + [] == s5;
    }
    assert Cards(s4, m, d) == [ad] by { CardsCons(Hole, s5, m, d); }
    assert Cards(s3, m, d) == [ad, ad] by { CardsCons(Ad, s4, m, d); }
    assert Cards(s2, m, d) == [c2, ad, ad] by { CardsCons(Post(p2), s3, m, d); }
    assert Cards(s1, m, d) == [c1, c2, ad, ad] by { CardsCons(Post(p1), s2, m, d); }
    assert Cards(s0, m, d) == [c0, c1, c2, ad, ad] by { CardsCons(Post(p0), s1, m, d); }
    assert s0 == [Post(p0), Post(p1), Post(p2), Ad, Hole, Ad];
  }

  /**
   Three recommendations, ads on, pair (3, 5) drawn: the hole at position 4
   renders nothing, so five cards show, three posts then two ads.
   */
  lemma ShortListPairThreeFiveCards(data: Option<QueryData>, isMobile: bool, defaultAvatar: string)
    requires HasPost(data) && |Recommendations(data)| == 3
    ensures var p := Recommendations(data);
      RelatedPostsForGuest(data, true, 7, isMobile, defaultAvatar) == Some([
        CardFor(p[0], isMobile, defaultAvatar), CardFor(p[1], isMobile, defaultAvatar),
        CardFor(p[2], isMobile, defaultAvatar), AdCard(isMobile), AdCard(isMobile)])
  {
    var p := Recommendations(data);
    ShortListPairThreeFiveExample(data);
    CardsAroundHole(p[0], p[1], p[2], isMobile, defaultAvatar);
  }
}
