/** The feed page `client/src/pages/community.tsx`: how old a post is said to
    be, the composer's checks and what it posts, and the like counter. The
    clock and the server's answer are parameters. */
module Community {
  import opened Common
  import opened Schema
  import opened Storage

  // ---------------------------------------------------------------------------
  // formatTimeAgo
  // ---------------------------------------------------------------------------

  const HourMs := 1000 * 60 * 60
  const DayMs := 24 * HourMs

  /** The three kinds of answer `formatTimeAgo` gives. */
  datatype Age = UnderAnHour | Hours(hours: nat) | Days(days: nat)

  /** `Math.floor(x / y)` for a positive `y`: Dafny's `/` already rounds down. */
  lemma FloorDivision(x: int, y: int)
    requires y > 0
    ensures (x / y) * y <= x < (x / y + 1) * y
  {
  }

  /** Whole days of whole hours are whole days: `floor(floor(x / h) / 24) ==
      floor(x / (24 h))`. */
  lemma FloorOfFloor(x: int, h: int)
    requires h > 0 && x >= 0
    ensures (x / h) / 24 == x / (24 * h)
  {
    var q := x / h;
    var d := q / 24;
    assert q * h <= x < (q + 1) * h;
    assert d * 24 <= q < (d + 1) * 24;
    MultiplyMonotone(d * 24, q, h);
    MultiplyMonotone(q + 1, (d + 1) * 24, h);
    assert d * (24 * h) == (d * 24) * h;
    assert (d + 1) * (24 * h) == ((d + 1) * 24) * h;
    FloorUnique(x, 24 * h, d);
  }

  /** The quotient is the only `d` with `d * y <= x < (d + 1) * y`. */
  lemma FloorUnique(x: int, y: int, d: int)
    requires y > 0 && d * y <= x < (d + 1) * y
    ensures x / y == d
  {
    var q, r := x / y, x % y;
    assert x == q * y + r && 0 <= r < y;
    if q < d {
      MultiplyMonotone(q + 1, d, y);
      assert false;
    } else if q > d {
      MultiplyMonotone(d + 1, q, y);
      assert false;
    }
  }

  lemma MultiplyMonotone(a: int, b: int, y: int)
    requires a <= b && y > 0
    ensures a * y <= b * y
  {
  }

  /** The bucket `formatTimeAgo` puts a post of time `posted` into at `now`:
      `h = floor((now - posted) / 3600000)`, then under one hour, `h` hours, or
      `floor(h / 24)` days. A post from the future is under an hour old. */
  function AgeOf(now: int, posted: int): (a: Age)
    ensures a.UnderAnHour? <==> now - posted < HourMs
    ensures a.Hours? ==> 1 <= a.hours < 24 && a.hours * HourMs <= now - posted < (a.hours + 1) * HourMs
    ensures a.Days? ==> a.days >= 1 && a.days * DayMs <= now - posted < (a.days + 1) * DayMs
  {
    var h := (now - posted) / HourMs;
    FloorDivision(now - posted, HourMs);
    if h < 1 then UnderAnHour
    else if h < 24 then Hours(h)
    else
      FloorOfFloor(now - posted, HourMs);
      FloorDivision(now - posted, DayMs);
      Days(h / 24)
  }

  /** The text shown for a bucket. */
  function AgeText(a: Age): (r: string)
    ensures |r| >= 9
  {
    match a
    case UnderAnHour => "Less than an hour ago"
    case Hours(h) => NatToString(h) + " hours ago"
    case Days(d) => NatToString(d) + " days ago"
  }

  /** `formatTimeAgo(posted)` read at time `now` (both in milliseconds). */
  function FormatTimeAgo(now: int, posted: int): (r: string)
    ensures now - posted < HourMs ==> r == "Less than an hour ago"
    ensures HourMs <= now - posted < DayMs ==>
      r == NatToString((now - posted) / HourMs) + " hours ago"
    ensures DayMs <= now - posted ==>
      r == NatToString((now - posted) / DayMs) + " days ago"
  {
    var a := AgeOf(now, posted);
    if a.Hours? then FloorUnique(now - posted, HourMs, a.hours); AgeText(a)
    else if a.Days? then FloorUnique(now - posted, DayMs, a.days); AgeText(a)
    else AgeText(a)
  }

  /** The text names its bucket: two different buckets never read the same. */
  lemma {:induction false} AgeTextInjective(a: Age, b: Age)
    requires AgeText(a) == AgeText(b)
    ensures a == b
  {
    var r := AgeText(a);
    match a
    case UnderAnHour =>
      if !b.UnderAnHour? {
        DigitsNotLetter(b, r);
      }
    case Hours(h) =>
      match b {
        case UnderAnHour => DigitsNotLetter(a, r);
        case Hours(k) => SameNumber(h, k, " hours ago");
        case Days(_) => HoursNotDays(a, b);
      }
    case Days(d) =>
      match b {
        case UnderAnHour => DigitsNotLetter(a, r);
        case Hours(_) => HoursNotDays(b, a);
        case Days(k) => SameNumber(d, k, " days ago");
      }
  }

  lemma DigitsNotLetter(a: Age, r: string)
    requires !a.UnderAnHour? && r == AgeText(a)
    ensures r != "Less than an hour ago"
  {
    var n := if a.Hours? then a.hours else a.days;
    assert r[0] == NatToString(n)[0];
    assert IsDigit(r[0]);
  }

  lemma HoursNotDays(a: Age, b: Age)
    requires a.Hours? && b.Days?
    ensures AgeText(a) != AgeText(b)
  {
    var x, y := AgeText(a), AgeText(b);
    var digits := NatToString(b.days);
    assert x[|x| - 10] == ' ';
    assert y[|y| - 10] == digits[|digits| - 1];
    assert IsDigit(digits[|digits| - 1]);
  }

  lemma SameNumber(m: nat, n: nat, suffix: string)
    requires NatToString(m) + suffix == NatToString(n) + suffix
    ensures m == n
  {
    var s, t := NatToString(m), NatToString(n);
    assert s == (s + suffix)[..|s|];
    assert t == (t + suffix)[..|t|];
    DecimalRoundTrip(m);
    DecimalRoundTrip(n);
  }

  // ---------------------------------------------------------------------------
  // The composer
  // ---------------------------------------------------------------------------

  /** The form posted to `/api/posts`: the text as typed (not trimmed) when it is
      not empty, and the file when one is chosen. */
  datatype PostForm = PostForm(content: Option<string>, media: Option<LocalFile>)

  const EmptyPost := Toast("Empty post", "Please add some content or attach a file.", true)
  const TooLarge := Toast("File too large", "Please select a file smaller than 10MB.", true)
  const Created := Toast("Post created!", "Your post has been shared with the community.", false)

  /** The composer's text box, chosen file and the toasts shown. */
  class CommunityPage {
    var postContent: string
    var selectedFile: Option<LocalFile>
    var toasts: seq<Toast>

    constructor()
      ensures postContent == "" && selectedFile.None? && toasts == []
    {
      postContent := "";
      selectedFile := None;
      toasts := [];
    }

    /** The picker's `onchange`: no file changes nothing; a file over 10 MB is
        refused with a toast; any other file is chosen. */
    method HandleFileSelect(file: Option<LocalFile>)
      modifies this
      ensures file.None? ==> selectedFile == old(selectedFile) && toasts == old(toasts)
      ensures file.Some? && file.value.size > MaxFileBytes ==>
        selectedFile == old(selectedFile) && toasts == old(toasts) + [TooLarge]
      ensures file.Some? && file.value.size <= MaxFileBytes ==>
        selectedFile == file && toasts == old(toasts)
      ensures postContent == old(postContent)
    {
      if file.None? {
        return;
      }
      if file.value.size > MaxFileBytes {
        toasts := toasts + [TooLarge];
        return;
      }
      selectedFile := file;
    }

    /** `handleSubmitPost` and the mutation it starts: blank text without a file
        is refused with a toast and nothing is sent; otherwise the form is sent,
        and a success clears the composer while a failure keeps it. */
    method SubmitPost(ok: bool) returns (sent: Option<PostForm>)
      modifies this
      ensures Trim(old(postContent)) == "" && old(selectedFile).None? ==>
        && sent.None? && toasts == old(toasts) + [EmptyPost]
        && postContent == old(postContent) && selectedFile == old(selectedFile)
      ensures Trim(old(postContent)) != "" || old(selectedFile).Some? ==>
        && sent == Some(PostForm(if old(postContent) != "" then Some(old(postContent)) else None, old(selectedFile)))
        && (ok ==> postContent == "" && selectedFile.None? && toasts == old(toasts) + [Created])
        && (!ok ==>
              postContent == old(postContent) && selectedFile == old(selectedFile)
              && toasts == old(toasts) + [Toast("Failed to create post", "Failed to create post", true)])
    {
      if Trim(postContent) == "" && selectedFile.None? {
        toasts := toasts + [EmptyPost];
        return None;
      }
      sent := Some(PostForm(if postContent != "" then Some(postContent) else None, selectedFile));
      if ok {
        postContent := "";
        selectedFile := None;
        toasts := toasts + [Created];
      } else {
        toasts := toasts + [Toast("Failed to create post", "Failed to create post", true)];
      }
    }
  }

  /** A post that is sent carries something: text that is not blank, or a file. */
  lemma SentPostHasBody(content: string, file: Option<LocalFile>)
    requires Trim(content) != "" || file.Some?
    ensures
      var form := PostForm(if content != "" then Some(content) else None, file);
      (form.content.Some? && !AllWhiteSpace(form.content.value)) || form.media.Some?
  {
  }

  // ---------------------------------------------------------------------------
  // The like counter
  // ---------------------------------------------------------------------------

  /** `post.reactions?.filter(r => r.type === 'like').length || 0`. */
  function LikeCount(reactions: Option<seq<Reaction>>): (n: nat)
    ensures reactions.None? ==> n == 0
    ensures reactions.Some? ==> n <= |reactions.value|
    ensures reactions.Some? ==> (n == 0 <==> forall i | 0 <= i < |reactions.value| :: reactions.value[i].kind != "like")
  {
    if reactions.None? then 0 else CountKind(reactions.value, "like")
  }

  /** Liking a post through `addReaction` replaces the user's earlier reaction:
      the counter goes up by one unless that reaction was already a like. */
  lemma LikeAfterReacting(rs: seq<Reaction>, like: Reaction)
    requires like.kind == "like"
    ensures LikeCount(Some(WithReaction(rs, like))) == CountKind(Filter(rs, NotOfPair(like.userId, like.targetId)), "like") + 1
  {
    CountKindAppend(Filter(rs, NotOfPair(like.userId, like.targetId)), like, "like");
  }
}
