/**
 The partial view of a post that the recommendation query returns, and the
 two per-post string facts the panel relies on: JavaScript truthiness of an
 optional thumbnail, and the nullish (`??`) image-source chain.
 */
module Posts {
  import opened Wrappers

  /** The owner's profile; its thumbnail URL may be null. */
  datatype UserProfile = UserProfile(thumbnail: Option<string>)

  datatype User = User(username: string, profile: UserProfile)

  /** A recommended post. `thumbnail` is `None` for null or undefined. */
  datatype PartialPost = PartialPost(
    id: string,
    title: string,
    urlSlug: string,
    thumbnail: Option<string>,
    shortDescription: string,
    user: User)

  /** JavaScript truthiness of an optional string: null, undefined and "" are falsy. */
  predicate Truthy(s: Option<string>)
  {
    s.Some? && s.value != ""
  }

  /** `a ?? b`: only null and undefined fall through; "" is kept. */
  function Nullish(a: Option<string>, b: string): string
  {
    match a
    case Some(v) => v
    case None => b
  }

  /** `a || b` on strings: every falsy value, "" included, falls through. */
  function OrElse(a: Option<string>, b: string): string
  {
    if Truthy(a) then a.value else b
  }

  /**
   The URL handed to the image optimiser for a post's card:
   post thumbnail ?? owner's profile thumbnail ?? default avatar.
   */
  function ImageSource(p: PartialPost, defaultAvatar: string): (r: string)
    ensures p.thumbnail.Some? ==> r == p.thumbnail.value
    ensures p.thumbnail.None? && p.user.profile.thumbnail.Some? ==> r == p.user.profile.thumbnail.value
    ensures p.thumbnail.None? && p.user.profile.thumbnail.None? ==> r == defaultAvatar
  {
    Nullish(p.thumbnail, Nullish(p.user.profile.thumbnail, defaultAvatar))
  }

  /** The same chain written with `||`: a falsy-but-present thumbnail is skipped. */
  function TruthyImageSource(p: PartialPost, defaultAvatar: string): string
  {
    OrElse(p.thumbnail, OrElse(p.user.profile.thumbnail, defaultAvatar))
  }

  /**
   The image source is always one of the three candidates, and the first
   present candidate wins; in particular an empty-string thumbnail is
   returned as it is, while a truthy thumbnail is returned and is non-empty.
   */
  lemma ImageSourceFirstPresent(p: PartialPost, defaultAvatar: string)
    ensures var r := ImageSource(p, defaultAvatar);
      && (r == defaultAvatar || Some(r) == p.thumbnail || Some(r) == p.user.profile.thumbnail)
      && (p.thumbnail == Some("") ==> r == "")
      && (Truthy(p.thumbnail) ==> r == p.thumbnail.value && r != "")
  {
  }

  /**
   The nullish chain and the truthiness chain agree on every post whose
   thumbnail and profile thumbnail are each either absent or non-empty.
   */
  lemma NullishAgreesWithTruthyUnlessEmpty(p: PartialPost, defaultAvatar: string)
    requires p.thumbnail != Some("") && p.user.profile.thumbnail != Some("")
    ensures ImageSource(p, defaultAvatar) == TruthyImageSource(p, defaultAvatar)
  {
  }

  /** An empty thumbnail is kept by `??` but skipped by `||` when the profile has a picture. */
  lemma EmptyThumbnailSemanticsDiffer(p: PartialPost, defaultAvatar: string)
    requires p.thumbnail == Some("")
    requires Truthy(p.user.profile.thumbnail)
    ensures ImageSource(p, defaultAvatar) == ""
    ensures TruthyImageSource(p, defaultAvatar) == p.user.profile.thumbnail.value
    ensures ImageSource(p, defaultAvatar) != TruthyImageSource(p, defaultAvatar)
    ensures !Truthy(p.thumbnail)
  {
  }
}
