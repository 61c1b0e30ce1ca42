# Related posts for guests — a Dafny model

This project models the selection logic of the guest "related posts" panel
of a blogging client. The panel is shown under a post to visitors who are
not signed in. From the recommended posts returned for a post it keeps up
to six, preferring posts that have a thumbnail. When ads are on, it turns
one pair of positions into ad placements; the pair is drawn from a fixed
table of eight. Each post card shows an image and, on the mobile layout, a
cleaned-up excerpt.

Modules:

- `Wrappers`: `Option`, which stands for JavaScript's `null`/`undefined` versus a present value.
- `Posts`: the partial post, its owner and profile; JavaScript truthiness
  of an optional string; the nullish `??` image-source chain, kept apart
  from the `||` chain.
- `Excerpt`: the global replacement of `&#x3A;` by `:`, and the `...` that
  follows a description of exactly 150 characters.
- `Selection`: the `postsWithAds` computation. It filters, takes a prefix,
  then writes the drawn ad pair. A write follows JavaScript array semantics
  (section 10.4.2.1 of ECMA-262): writing at or past the length grows the
  array, and the skipped indices become holes. An element is therefore a
  `Slot = Post(p) | Ad | Hole`. `Ad` is the `undefined` the source writes.
  The random draw is a parameter `k` of type `PairChoice` (`0 <= k < 8`).
- `Render`: the panel for one render. Without `data.post` it renders
  nothing. Otherwise it renders one card per array element that `map`
  visits. `map` skips holes, so a hole renders nothing.

Behaviour of the code worth stating plainly:

- A write past the end of a short list is not ignored: it grows the array
  and leaves holes at the skipped indices. With a post present and ads on,
  exactly two ad cards always render (`Render.AdsOnTwoAdCards`), even for
  an empty recommendation list.
- The result length is `min(6, n)` only with ads off. With ads on it is
  `max(min(6, n), second + 1)`, where `second` is the larger index of the
  drawn pair.
- The excerpt check uses the length of the original description, not of the
  unescaped text. The unescaped text is never longer than the original. The
  rendered excerpt can be up to three characters longer, because of the
  appended `...`.
- An empty-but-present recommendation list with ads off still renders the
  panel and its heading with no cards. The source's `!postsWithAds` test
  treats `[]` as truthy (`Render.EmptyRecommendationsRenderEmptyPanel`).

## Model

| member | source | states |
|---|---|---|
| Posts.ImageSource | src/containers/post/RelatedPostsForGuest.tsx:87-91 | the image URL is the post thumbnail when present (even ""), else the owner's profile thumbnail when present, else the default avatar |
| Posts.ImageSourceFirstPresent | src/containers/post/RelatedPostsForGuest.tsx:128-132 | the image URL is always one of the three candidates; an empty thumbnail yields "", and a truthy thumbnail yields itself, non-empty |
| Posts.NullishAgreesWithTruthyUnlessEmpty | src/containers/post/RelatedPostsForGuest.tsx:88-90 | the `??` chain and an `\|\|` chain give the same URL whenever neither thumbnail is a present empty string |
| Posts.EmptyThumbnailSemanticsDiffer | src/containers/post/RelatedPostsForGuest.tsx:49 | a present empty thumbnail is falsy for the filter, yet `??` returns it instead of a profile picture, where `\|\|` would not |
| Excerpt.Unescape | src/containers/post/RelatedPostsForGuest.tsx:100 | the replacement never lengthens the text, and it keeps the length exactly when the text holds no `&#x3A;` |
| Excerpt.UnescapeRemovesEntities | src/containers/post/RelatedPostsForGuest.tsx:100 | no `&#x3A;` remains after the global replacement, for every input |
| Excerpt.UnescapeIdentity | src/containers/post/RelatedPostsForGuest.tsx:100 | text without `&#x3A;` is left unchanged |
| Excerpt.UnescapeIdempotent | src/containers/post/RelatedPostsForGuest.tsx:100 | replacing twice gives the same text as replacing once |
| Excerpt.UnescapeEscape | src/containers/post/RelatedPostsForGuest.tsx:100 | the replacement inverts writing every colon as `&#x3A;`, for every text that holds no entity of its own |
| Excerpt.ExcerptText | src/containers/post/RelatedPostsForGuest.tsx:100-101 | the rendered excerpt holds no `&#x3A;`; it is the unescaped text followed by `...` if and only if the original is exactly 150 long, and the unescaped text alone otherwise |
| Selection.AdPair | src/containers/post/RelatedPostsForGuest.tsx:57-69 | every drawn pair is in the table, with first < second < 6 |
| Selection.AdPairsDistinct | src/containers/post/RelatedPostsForGuest.tsx:57-66 | the table holds eight pairwise different pairs |
| Selection.WithThumbnail | src/containers/post/RelatedPostsForGuest.tsx:48-49 | the filter never grows the list, and every post it keeps has a truthy thumbnail |
| Selection.WithThumbnailLength | src/containers/post/RelatedPostsForGuest.tsx:48-50 | the filtered list is as long as an independent count of the posts with a truthy thumbnail |
| Selection.WithThumbnailMembers | src/containers/post/RelatedPostsForGuest.tsx:48-49 | the filter keeps exactly the input's posts with a truthy thumbnail |
| Selection.WithThumbnailPosition | src/containers/post/RelatedPostsForGuest.tsx:48-49 | every thumbnailed post sits in the filtered list at its rank, the number of thumbnailed posts before it |
| Selection.WithThumbnailOrigin | src/containers/post/RelatedPostsForGuest.tsx:48-49 | every entry of the filtered list is the input's thumbnailed post of that rank, so the filter keeps the original order |
| Selection.Preselect | src/containers/post/RelatedPostsForGuest.tsx:48-54 | the pre-ad list has length min(6, n) and holds only input posts; with six or more thumbnailed posts all of its posts are thumbnailed, otherwise it is the input's prefix |
| Selection.PreselectFirstSixThumbnailed | src/containers/post/RelatedPostsForGuest.tsx:52-53 | with six or more thumbnailed posts, the thumbnailed post of rank j < 6 sits at position j of the pre-ad list |
| Selection.PreselectOrigin | src/containers/post/RelatedPostsForGuest.tsx:52-53 | with six or more thumbnailed posts, each position j < 6 holds the thumbnailed post of rank j |
| Selection.SparseThumbnailsExample | src/containers/post/RelatedPostsForGuest.tsx:48-51 | of seven posts, the second and fifth lack thumbnails: five are thumbnailed, so the first six posts are kept as they come |
| Selection.Assign | src/containers/post/RelatedPostsForGuest.tsx:70-71 | an element write sets the index, keeps every other existing element, grows the length to cover the index, and leaves holes in between |
| Selection.PlaceAds | src/containers/post/RelatedPostsForGuest.tsx:67-71 | both drawn positions become ads; other existing positions keep their element, new ones are holes; length is max(old length, second + 1) |
| Selection.PostsWithAds | src/containers/post/RelatedPostsForGuest.tsx:46-73 | the result is null exactly when there is no `data.post`; it never exceeds six; with ads off it has length min(6, n) and every element is a recommended post; with ads on its length is max(min(6, n), second + 1) |
| Selection.NoAdsNoEmptySlots | src/containers/post/RelatedPostsForGuest.tsx:55 | with ads off the list has length min(6, n), no ad position, and the pre-ad posts in order |
| Selection.AdsOnFullGrid | src/containers/post/RelatedPostsForGuest.tsx:69-71 | with ads on and at least six posts, exactly the two drawn positions are ads, there are no holes, and every other position keeps its post |
| Selection.AdsOnShortList | src/containers/post/RelatedPostsForGuest.tsx:69-71 | with ads on and fewer than six posts, the drawn positions are ads, the kept posts stay in place, and positions added by growth are holes |
| Selection.AdsOnTwoAds | src/containers/post/RelatedPostsForGuest.tsx:57-71 | with a post present and ads on, the list holds exactly two ads whatever its length |
| Selection.FullGridPairTwoFourExample | src/containers/post/RelatedPostsForGuest.tsx:57-72 | six thumbnailed posts with pair (2, 4): positions 2 and 4 are ads and the other four posts keep their order |
| Selection.ShortListPairThreeFiveExample | src/containers/post/RelatedPostsForGuest.tsx:69-72 | three posts with pair (3, 5): the list grows to six, with ads at 3 and 5 and a hole at 4 |
| Render.Cards | src/containers/post/RelatedPostsForGuest.tsx:119-145 | the number of cards is the number of elements less the holes |
| Render.CardsAppend | src/containers/post/RelatedPostsForGuest.tsx:119-145 | rendering a concatenation of elements renders each part in turn |
| Render.CardsVisit | src/containers/post/RelatedPostsForGuest.tsx:81-110 | every element that is not a hole renders, in order, as its post card or ad card, at its index less the holes before it |
| Render.CardsKeepAds | src/containers/post/RelatedPostsForGuest.tsx:105-109 | the number of ad cards equals the number of `undefined` elements |
| Render.CardsWithoutHoles | src/containers/post/RelatedPostsForGuest.tsx:81-110 | without holes, position j's card is the ad card or the post card for element j |
| Render.Panel | src/containers/post/RelatedPostsForGuest.tsx:75 | nothing renders exactly when `postsWithAds` is null, and there are never more cards than elements |
| Render.RelatedPostsForGuest | src/containers/post/RelatedPostsForGuest.tsx:46-75 | the component renders nothing exactly when there is no `data.post`, and otherwise at most six cards |
| Render.EmptyRecommendationsRenderEmptyPanel | src/containers/post/RelatedPostsForGuest.tsx:75 | a post with no recommendations and ads off renders the panel with no cards, not nothing |
| Render.NoAdsCards | src/containers/post/RelatedPostsForGuest.tsx:119-145 | with ads off, the cards are the post cards of the pre-ad list, in order |
| Render.ThumbnailedGridShowsOwnThumbnails | src/containers/post/RelatedPostsForGuest.tsx:128-132 | with ads off and six or more thumbnailed posts, every one of the six cards shows its own non-empty thumbnail |
| Render.AdsOnFullGridCards | src/containers/post/RelatedPostsForGuest.tsx:140-143 | with ads on and at least six posts, there are six cards: ad cards at the two drawn positions and post cards elsewhere |
| Render.AdsOnTwoAdCards | src/containers/post/RelatedPostsForGuest.tsx:105-109 | with a post present and ads on, exactly two ad cards render |
| Render.ShortListPairThreeFiveCards | src/containers/post/RelatedPostsForGuest.tsx:81-110 | three posts with pair (3, 5) render five cards: three posts, then two ads (the hole renders nothing) |

## Left out

- Fetching with the GraphQL client (`useQuery`): the model takes the result as an optional `QueryData` holding an optional post with its recommendations.
- The resize listener and the `isMobile` state: `isMobile` is a parameter of `Render.RelatedPostsForGuest`.
- `Math.random` and `Math.floor`: the drawn table index is the parameter `k`.
- `optimizeImage`: its body is not part of this model. A card's `imageSource` is the URL before optimisation, and the fixed width 640 is not modelled.
- React memoisation, element keys, JSX markup, styled-components CSS, the heading text, `Link` and its `/@username/url_slug` target, the `gtag` click event and `RelatedPostAd`: presentation and library glue with no logic to state.
- The default avatar image (`userThumbnail`): a parameter `defaultAvatar`, since its value is an asset path outside this file.
- String length: JavaScript counts UTF-16 code units, while the model counts characters. The 150 test and all length facts treat one character as one code unit.
- `Escape` models no line of the source. It is the reference inverse used to state the round trip of the `&#x3A;` replacement.
