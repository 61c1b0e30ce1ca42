/**
 The mobile excerpt: every `&#x3A;` entity in the short description is
 replaced by `:` (a global, left-to-right, non-overlapping replacement),
 and `...` follows exactly when the original description is 150 long,
 the length at which descriptions are cut short.
 */
module Excerpt {

  const Entity: string := "&#x3A;"
  const Colon: char := ':'
  const Ellipsis: string := "..."
  const TruncatedLength: nat := 150

  /** `s` holds the entity `&#x3A;` starting at position `i`. */
  predicate EntityAt(s: string, i: int)
  {
    && 0 <= i && i + 6 <= |s|
    && s[i] == '&' && s[i + 1] == '#' && s[i + 2] == 'x'
    && s[i + 3] == '3' && s[i + 4] == 'A' && s[i + 5] == ';'
  }

  predicate ContainsEntity(s: string)
  {
    exists i :: 0 <= i <= |s| && EntityAt(s, i)
  }

  /** `EntityAt` is exactly "the slice at `i` is the entity". */
  lemma EntityAtIsSlice(s: string, i: int)
    requires 0 <= i && i + |Entity| <= |s|
    ensures EntityAt(s, i) <==> s[i..i + |Entity|] == Entity
  {
    var w := s[i..i + |Entity|];
    assert w[0] == s[i] && w[1] == s[i + 1] && w[2] == s[i + 2];
    assert w[3] == s[i + 3] && w[4] == s[i + 4] && w[5] == s[i + 5];
  }

  /** `s.replace(/&#x3A;/g, ':')`. */
  function Unescape(s: string): (r: string)
    ensures |r| <= |s|
    ensures |r| == |s| <==> !ContainsEntity(s)
    decreases |s|
  {
    if |s| == 0 then ""
    else if EntityAt(s, 0) then [Colon] + Unescape(s[|Entity|..])
    else
      NoEntityInTail(s);
      [s[0]] + Unescape(s[1..])
  }

  /** Entities of the tail of `s` are the entities of `s` past position 0. */
  lemma NoEntityInTail(s: string)
    requires |s| > 0
    ensures ContainsEntity(s[1..]) ==> ContainsEntity(s)
    ensures !EntityAt(s, 0) ==> (ContainsEntity(s) ==> ContainsEntity(s[1..]))
  {
    if ContainsEntity(s[1..]) {
      var i :| 0 <= i <= |s[1..]| && EntityAt(s[1..], i);
      assert EntityAt(s, i + 1);
    }
    if !EntityAt(s, 0) && ContainsEntity(s) {
      var i :| 0 <= i <= |s| && EntityAt(s, i);
      assert EntityAt(s[1..], i - 1);
    }
  }

  /** The rendered paragraph: unescaped text, then `...` when the original is 150 long. */
  function ExcerptText(description: string): (r: string)
    ensures !ContainsEntity(r)
    ensures |description| == TruncatedLength <==> r == Unescape(description) + Ellipsis
    ensures |description| != TruncatedLength ==> r == Unescape(description)
    ensures |r| <= |description| + |Ellipsis|
  {
    var text := Unescape(description);
    UnescapeRemovesEntities(description);
    if |description| == TruncatedLength then
      EllipsisAddsNoEntity(text);
      text + Ellipsis
    else text
  }

  lemma EllipsisAddsNoEntity(t: string)
    requires !ContainsEntity(t)
    ensures !ContainsEntity(t + Ellipsis)
  {
    var u := t + Ellipsis;
    forall i | 0 <= i <= |u|
      ensures !EntityAt(u, i)
    {
      if i + 6 <= |t| {
        assert !EntityAt(t, i);
      }
    }
  }

  /**
   If the first `k` characters of `Unescape(t)` contain no colon, they were
   copied unchanged from `t`.
   */
  lemma {:induction false} UnescapeColonFreePrefix(t: string, k: nat)
    requires k <= |Unescape(t)|
    requires forall j :: 0 <= j < k ==> Unescape(t)[j] != Colon
    ensures k <= |t|
    ensures forall j :: 0 <= j < k ==> Unescape(t)[j] == t[j]
    decreases |t|
  {
    if k > 0 {
      assert Unescape(t)[0] != Colon;
      assert !EntityAt(t, 0);
      var u := Unescape(t[1..]);
      assert Unescape(t) == [t[0]] + u;
      forall j | 0 <= j < k - 1
        ensures u[j] != Colon
      {
        assert u[j] == Unescape(t)[j + 1];
      }
      UnescapeColonFreePrefix(t[1..], k - 1);
    }
  }

  lemma ColonConsNoEntity(t: string)
    requires !ContainsEntity(t)
    ensures !ContainsEntity([Colon] + t)
  {
    var r := [Colon] + t;
    forall i | 0 < i <= |r|
      ensures !EntityAt(r, i)
    {
      assert !EntityAt(t, i - 1);
    }
  }

  /** Copying a first character that does not start an entity creates no entity. */
  lemma CopyConsNoEntity(s: string)
    requires |s| > 0 && !EntityAt(s, 0)
    requires !ContainsEntity(Unescape(s[1..]))
    ensures !ContainsEntity([s[0]] + Unescape(s[1..]))
  {
    var tail := Unescape(s[1..]);
    var r := [s[0]] + tail;
    if 5 <= |tail| && forall j :: 0 <= j < 5 ==> tail[j] != Colon {
      UnescapeColonFreePrefix(s[1..], 5);
    }
    assert !EntityAt(r, 0);
    forall i | 0 < i <= |r|
      ensures !EntityAt(r, i)
    {
      assert !EntityAt(tail, i - 1);
    }
  }

  /** No entity survives the replacement: the rendered text never shows `&#x3A;`. */
  lemma {:induction false} UnescapeRemovesEntities(s: string)
    ensures !ContainsEntity(Unescape(s))
    decreases |s|
  {
    if |s| == 0 {
    } else if EntityAt(s, 0) {
      UnescapeRemovesEntities(s[|Entity|..]);
      ColonConsNoEntity(Unescape(s[|Entity|..]));
    } else {
      UnescapeRemovesEntities(s[1..]);
      CopyConsNoEntity(s);
    }
  }

  /** Text without entities is left exactly as it is. */
  lemma {:induction false} UnescapeIdentity(s: string)
    requires !ContainsEntity(s)
    ensures Unescape(s) == s
    decreases |s|
  {
    if |s| > 0 {
      assert !EntityAt(s, 0);
      NoEntityInTail(s);
      UnescapeIdentity(s[1..]);
      assert s == [s[0]] + s[1..];
    }
  }

  /** Replacing twice is the same as replacing once. */
  lemma UnescapeIdempotent(s: string)
    ensures Unescape(Unescape(s)) == Unescape(s)
  {
    UnescapeRemovesEntities(s);
    UnescapeIdentity(Unescape(s));
  }

  /** The reverse transform: every colon written as the `&#x3A;` entity. */
  function Escape(s: string): (r: string)
    ensures |r| >= |s|
    decreases |s|
  {
    if |s| == 0 then ""
    else if s[0] == Colon then Entity + Escape(s[1..])
    else [s[0]] + Escape(s[1..])
  }

  /** A prefix of `Escape(t)` without `&` was copied unchanged from `t`. */
  lemma {:induction false} EscapeAmpersandFreePrefix(t: string, k: nat)
    requires k <= |Escape(t)|
    requires forall j :: 0 <= j < k ==> Escape(t)[j] != '&'
    ensures k <= |t|
    ensures forall j :: 0 <= j < k ==> Escape(t)[j] == t[j]
    decreases |t|
  {
    if k > 0 {
      assert Escape(t)[0] != '&';
      assert t[0] != Colon;
      var u := Escape(t[1..]);
      assert Escape(t) == [t[0]] + u;
      forall j | 0 <= j < k - 1
        ensures u[j] != '&'
      {
        assert u[j] == Escape(t)[j + 1];
      }
      EscapeAmpersandFreePrefix(t[1..], k - 1);
    }
  }

  /** Escaping a character that is not a colon and does not start an entity starts no entity. */
  lemma EscapeCopyNoEntity(s: string)
    requires |s| > 0 && s[0] != Colon && !EntityAt(s, 0)
    ensures !EntityAt([s[0]] + Escape(s[1..]), 0)
  {
    var t := s[1..];
    var tail := Escape(t);
    if EntityAt([s[0]] + tail, 0) {
      assert tail[0] == '#' && tail[1] == 'x' && tail[2] == '3' && tail[3] == 'A' && tail[4] == ';';
      EscapeAmpersandFreePrefix(t, 5);
    }
  }

  /**
   Unescaping undoes escaping for every text that does not already hold an
   entity (such a text could not be told apart from an escaped colon).
   */
  lemma {:induction false} UnescapeEscape(s: string)
    requires !ContainsEntity(s)
    ensures Unescape(Escape(s)) == s
    decreases |s|
  {
    if |s| > 0 {
      NoEntityInTail(s);
      assert !EntityAt(s, 0);
      var e := Escape(s);
      var tail := Escape(s[1..]);
      UnescapeEscape(s[1..]);
      if s[0] == Colon {
        assert e == Entity + tail;
        assert EntityAt(e, 0);
        assert e[|Entity|..] == tail;
      } else {
        assert e == [s[0]] + tail;
        EscapeCopyNoEntity(s);
        assert e[1..] == tail;
      }
      assert s == [s[0]] + s[1..];
    }
  }
}
