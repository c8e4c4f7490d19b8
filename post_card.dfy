/**
 * A post card's local like toggle: `liked` and `likeCount`, seeded by
 * `parseInt(post.likes) || 0` and flipped by `handleLike`; nothing is
 * written back to the post or the store.
 */
module PostCard {
  import opened Wrappers
  import opened Text
  import opened FrontendTypes

  predicate IsDigit(c: char) {
    '0' <= c <= '9'
  }

  predicate AllDigits(s: string) {
    forall i :: 0 <= i < |s| ==> IsDigit(s[i])
  }

  /** The longest prefix of decimal digits. */
  function DigitPrefix(s: string): (r: string)
    ensures |r| <= |s| && r == s[..|r|]
    ensures AllDigits(r)
    ensures |r| == |s| || !IsDigit(s[|r|])
  {
    if s != [] && IsDigit(s[0]) then [s[0]] + DigitPrefix(s[1..]) else []
  }

  /** The value of a string of decimal digits. */
  function DigitsValue(ds: string): nat
    requires AllDigits(ds)
  {
    if ds == [] then 0
    else DigitsValue(ds[..|ds| - 1]) * 10 + (ds[|ds| - 1] as int - '0' as int)
  }

  /**
   * `parseInt(s)` in base 10: leading whitespace, an optional sign, then the
   * longest run of digits; no digits means NaN, here `None`.
   */
  function ParseInt(s: string): Option<int> {
    var t := TrimStart(s, JavaScript);
    var negative := t != [] && t[0] == '-';
    var rest := if t != [] && (t[0] == '-' || t[0] == '+') then t[1..] else t;
    var digits := DigitPrefix(rest);
    if digits == [] then None
    else
      var value: int := DigitsValue(digits);
      Some(if negative then -value else value)
  }

  /** `parseInt(likes) || 0`: NaN and zero both give 0. */
  function SeedLikeCount(likes: string): int {
    var parsed := ParseInt(likes);
    if parsed.Some? && parsed.value != 0 then parsed.value else 0
  }

  /** `String(n)` for a natural number: its decimal digits. */
  function Decimal(n: nat): (r: string)
    ensures |r| >= 1 && AllDigits(r)
  {
    if n < 10 then [('0' as int + n) as char] else Decimal(n / 10) + [('0' as int + n % 10) as char]
  }

  lemma {:induction false} DecimalValue(n: nat)
    ensures DigitsValue(Decimal(n)) == n
  {
    var r := Decimal(n);
    if n < 10 {
      assert r[..0] == [];
    } else {
      DecimalValue(n / 10);
      assert r[..|r| - 1] == Decimal(n / 10);
    }
  }

  lemma DigitPrefixOfDigits(s: string)
    requires AllDigits(s)
    ensures DigitPrefix(s) == s
  {
  }

  /** `parseInt` reads back the decimal text of every natural number... */
  lemma ParseIntDecimal(n: nat)
    ensures ParseInt(Decimal(n)) == Some(n)
  {
    var d := Decimal(n);
    DecimalValue(n);
    DigitPrefixOfDigits(d);
    assert IsDigit(d[0]) && d[0] != '-' && d[0] != '+';
    assert TrimStart(d, JavaScript) == d;
  }

  /** ... also after a plus sign... */
  lemma ParseIntPlusDecimal(n: nat)
    ensures ParseInt("+" + Decimal(n)) == Some(n)
  {
    var d := Decimal(n);
    var t := "+" + d;
    DecimalValue(n);
    DigitPrefixOfDigits(d);
    assert TrimStart(t, JavaScript) == t;
    assert t[1..] == d;
  }

  /** ... and reads a minus sign as negation. */
  lemma ParseIntMinusDecimal(n: nat)
    ensures ParseInt("-" + Decimal(n)).Some? && ParseInt("-" + Decimal(n)).value == -(n as int)
  {
    var d := Decimal(n);
    var t := "-" + d;
    DecimalValue(n);
    DigitPrefixOfDigits(d);
    assert TrimStart(t, JavaScript) == t;
    assert t[1..] == d;
  }

  /** The like count starts at the number the post's `likes` text spells. */
  lemma SeedFromDecimal(n: nat)
    ensures SeedLikeCount(Decimal(n)) == n
  {
    ParseIntDecimal(n);
  }

  /** Text that does not start with whitespace, a sign or a digit seeds the count with 0. */
  lemma SeedNonNumeric(likes: string)
    requires likes == [] || (!IsSpace(likes[0], JavaScript) && !IsDigit(likes[0]) && likes[0] != '-' && likes[0] != '+')
    ensures SeedLikeCount(likes) == 0
  {
  }

  /** The two state fields of a card. */
  datatype LikeState = LikeState(liked: bool, count: int)

  /** `handleLike`'s two updaters: the count moves by one towards the new `liked`, which flips. */
  function Toggle(s: LikeState): LikeState {
    LikeState(!s.liked, if s.liked then s.count - 1 else s.count + 1)
  }

  function ToggleTimes(s: LikeState, k: nat): LikeState {
    if k == 0 then s else Toggle(ToggleTimes(s, k - 1))
  }

  /** Two toggles restore the exact state. */
  lemma ToggleTwice(s: LikeState)
    ensures Toggle(Toggle(s)) == s
  {
  }

  /** From an unliked card, after k toggles it is liked exactly when k is odd, and the count is n + k mod 2. */
  lemma {:induction false} ToggleTimesParity(s: LikeState, k: nat)
    requires !s.liked
    ensures ToggleTimes(s, k) == LikeState(k % 2 == 1, s.count + k % 2)
  {
    if k > 0 {
      ToggleTimesParity(s, k - 1);
    }
  }

  /** A post whose likes read "2" shows 2, and one click makes it liked with 3. */
  lemma LikeTwoBecomesThree()
    ensures SeedLikeCount("2") == 2
    ensures Toggle(LikeState(false, SeedLikeCount("2"))) == LikeState(true, 3)
  {
    assert Decimal(2) == "2";
    SeedFromDecimal(2);
  }

  /** The state `PostCard` holds for one post. */
  class CardState {
    const post: FeedPost
    var liked: bool
    var likeCount: int

    function State(): LikeState
      reads this
    {
      LikeState(liked, likeCount)
    }

    /** The count is the seed, plus one while liked. */
    ghost predicate Valid()
      reads this
    {
      likeCount == SeedLikeCount(post.likes) + (if liked then 1 else 0)
    }

    constructor (post: FeedPost)
      ensures this.post == post && !liked && likeCount == SeedLikeCount(post.likes) && Valid()
    {
      this.post := post;
      liked := false;
      likeCount := SeedLikeCount(post.likes);
    }

    /** `handleLike`: the post itself is a constant of the card and does not change. */
    method HandleLike()
      requires Valid()
      modifies this
      ensures Valid()
      ensures State() == Toggle(old(State()))
    {
      if liked {
        likeCount := likeCount - 1;
      } else {
        likeCount := likeCount + 1;
      }
      liked := !liked;
    }
  }
}
