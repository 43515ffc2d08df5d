/**
  A product's comment box: the stored comments of the product, shown newest
  first a few at a time, with a form that prepends a new comment. Timestamps
  are numbers; the clock, the id generator and the JSON decoding of the
  stored list are parameters.
 */
module Comments {
  import opened Types
  import opened Strings
  import opened Seqs

  datatype Comment = Comment(id: string, author: string, text: string, createdAt: int)

  /** The box's state: the comments in stored order, how many are shown,
      the two inputs, and the error line. */
  datatype State = State(comments: seq<Comment>, visibleCount: int, author: string, text: string, error: string)

  const StoragePrefix: string := "comments:"
  const InitialVisible: int := 2
  const MoreStep: int := 3
  const MissingInput: string := "لطفاً نام و نظر را وارد کنید"

  const Initial: State := State([], InitialVisible, "", "", "")

  /** The storage key of a product's comments. */
  function StorageKey(productId: string): (k: string)
    ensures StartsWith(k, StoragePrefix) && k[|StoragePrefix|..] == productId
  {
    StoragePrefix + productId
  }

  /** Distinct products keep their comments under distinct keys. */
  lemma StorageKeysDistinct(a: string, b: string)
    ensures StorageKey(a) == StorageKey(b) ==> a == b
  {
    if StorageKey(a) == StorageKey(b) {
      assert StorageKey(a)[|StoragePrefix|..] == StorageKey(b)[|StoragePrefix|..];
    }
  }

  /** Reading the stored list: a present, parsable entry replaces the
      comments; anything else leaves them as they are. */
  function Load(st: State, raw: Option<string>, parse: string -> Option<seq<Comment>>): (r: State)
    ensures r.visibleCount == st.visibleCount && r.author == st.author && r.text == st.text && r.error == st.error
    ensures raw.Some? && raw.value != "" && parse(raw.value).Some? ==> r.comments == parse(raw.value).value
    ensures !(raw.Some? && raw.value != "" && parse(raw.value).Some?) ==> r == st
  {
    if raw.Some? && raw.value != "" && parse(raw.value).Some? then st.(comments := parse(raw.value).value) else st
  }

  /** Newest first: the comparator createdAt(b) − createdAt(a). */
  predicate NewerFirst(a: Comment, b: Comment) {
    a.createdAt >= b.createdAt
  }

  /** The comments, newest first. How comments with equal timestamps are
      ordered among themselves is not stated. */
  function Ordered(comments: seq<Comment>): (r: seq<Comment>)
    ensures multiset(r) == multiset(comments) && |r| == |comments|
    ensures forall i, j :: 0 <= i < j < |r| ==> r[i].createdAt >= r[j].createdAt
  {
    assert TotalPreorder(NewerFirst);
    SortBySorted(comments, NewerFirst);
    SortBy(comments, NewerFirst)
  }

  /** The length `slice(0, end)` keeps of `n` elements: a negative `end`
      counts back from the end. */
  function SliceLength(n: nat, end: int): (k: nat)
    ensures k <= n
    ensures end >= 0 ==> k == Min(end, n)
    ensures end < 0 ==> k + Min(-end, n) == n
  {
    if end >= 0 then Min(end, n) else if n + end < 0 then 0 else n + end
  }

  /** The comments on screen: `ordered.slice(0, visibleCount)`. Every
      reachable state has a count of two or more (`Invariant`), so the
      negative case, which drops comments from the end, never arises. */
  function Visible(st: State): (r: seq<Comment>)
    ensures st.visibleCount >= 0 ==> |r| == Min(st.visibleCount, |st.comments|)
    ensures st.visibleCount < 0 ==> |r| + Min(-st.visibleCount, |st.comments|) == |st.comments|
    ensures forall i :: 0 <= i < |r| ==> r[i] == Ordered(st.comments)[i]
  {
    Take(Ordered(st.comments), SliceLength(|st.comments|, st.visibleCount))
  }

  /** The "show more" button appears exactly when some comment is hidden. */
  predicate HasMore(st: State) {
    |Ordered(st.comments)| > |Visible(st)|
  }

  lemma HasMoreIff(st: State)
    requires st.visibleCount >= 0
    ensures HasMore(st) <==> |st.comments| > st.visibleCount
    ensures !HasMore(st) ==> multiset(Visible(st)) == multiset(st.comments)
  {
    if !HasMore(st) {
      assert Visible(st) == Ordered(st.comments);
    }
  }

  /** "Show more" reveals three more. */
  function ShowMore(st: State): (r: State)
    ensures r.visibleCount == st.visibleCount + MoreStep
    ensures r.comments == st.comments
    ensures r.author == st.author && r.text == st.text && r.error == st.error
  {
    st.(visibleCount := st.visibleCount + MoreStep)
  }

  /** Submitting the form. With a blank name or comment the error line says
      so and nothing else changes; otherwise the trimmed comment goes to the
      front of the list, the inputs and the error are cleared, and at least
      two comments are shown. */
  function HandleAdd(st: State, id: string, now: int): (r: State)
    ensures (IsBlank(st.author) || IsBlank(st.text)) ==> r == st.(error := MissingInput)
    ensures !(IsBlank(st.author) || IsBlank(st.text)) ==>
      && |r.comments| == |st.comments| + 1
      && r.comments[1..] == st.comments
      && r.comments[0] == Comment(id, Trim(st.author), Trim(st.text), now)
      && r.author == "" && r.text == "" && r.error == ""
      && r.visibleCount >= InitialVisible && r.visibleCount >= st.visibleCount
      && (r.visibleCount == InitialVisible || r.visibleCount == st.visibleCount)
  {
    if IsBlank(st.author) || IsBlank(st.text) then st.(error := MissingInput)
    else
      var c := Comment(id, Trim(st.author), Trim(st.text), now);
      State([c] + st.comments, if st.visibleCount < InitialVisible then InitialVisible else st.visibleCount, "", "", "")
  }

  /** An accepted comment's name and text are trimmed and non-empty. */
  lemma AddedCommentIsTrimmed(st: State, id: string, now: int)
    requires !IsBlank(st.author) && !IsBlank(st.text)
    ensures IsTrimmed(HandleAdd(st, id, now).comments[0].author) && HandleAdd(st, id, now).comments[0].author != ""
    ensures IsTrimmed(HandleAdd(st, id, now).comments[0].text) && HandleAdd(st, id, now).comments[0].text != ""
  {
  }

  /** A comment posted no earlier than every stored one appears at the top
      of the box. */
  lemma NewCommentShowsFirst(st: State, id: string, now: int)
    requires !IsBlank(st.author) && !IsBlank(st.text)
    requires forall i :: 0 <= i < |st.comments| ==> st.comments[i].createdAt <= now
    ensures Visible(HandleAdd(st, id, now))[0] == HandleAdd(st, id, now).comments[0]
  {
    var c := Comment(id, Trim(st.author), Trim(st.text), now);
    var r := HandleAdd(st, id, now);
    assert r.comments == [c] + st.comments by {
      assert r.comments[0] == c && r.comments[1..] == st.comments;
    }
    VisibleHeadIsNewest(r, c, st.comments);
  }

  /** A box whose list starts with a comment no older than the rest, and
      that shows at least one comment, shows that comment first. */
  lemma VisibleHeadIsNewest(r: State, c: Comment, cs: seq<Comment>)
    requires r.comments == [c] + cs && r.visibleCount >= 1
    requires forall i :: 0 <= i < |cs| ==> cs[i].createdAt <= c.createdAt
    ensures |Visible(r)| >= 1 && Visible(r)[0] == c
  {
    OrderedPrependNewest(c, cs);
    assert Ordered(r.comments)[0] == c;
  }

  /** Ordering a list whose head is no older than the rest keeps that head
      in front of the ordered rest. */
  lemma OrderedPrependNewest(c: Comment, cs: seq<Comment>)
    requires forall i :: 0 <= i < |cs| ==> cs[i].createdAt <= c.createdAt
    ensures Ordered([c] + cs) == [c] + Ordered(cs)
  {
    assert forall i :: 0 <= i < |cs| ==> NewerFirst(c, cs[i]);
    SortByLeastFirst(c, cs, NewerFirst);
  }

  /** The box never shows fewer than two comments' worth of room. */
  predicate Invariant(st: State) {
    st.visibleCount >= InitialVisible
  }

  /** The events of the box. */
  datatype Event = Add(id: string, now: int) | More | TypeAuthor(author: string) | TypeText(text: string)

  function Step(st: State, e: Event): State {
    match e
      case Add(id, now) => HandleAdd(st, id, now)
      case More => ShowMore(st)
      case TypeAuthor(a) => st.(author := a)
      case TypeText(t) => st.(text := t)
  }

  function Replay(st: State, es: seq<Event>): State
    decreases |es|
  {
    if |es| == 0 then st else Replay(Step(st, es[0]), es[1..])
  }

  /** From the initial box, any sequence of events keeps at least two
      comments' worth of room and never shrinks it. */
  lemma {:induction false} ReplayKeepsInvariant(st: State, es: seq<Event>)
    requires Invariant(st)
    ensures Invariant(Replay(st, es))
    ensures Replay(st, es).visibleCount >= st.visibleCount
    decreases |es|
  {
    if |es| > 0 {
      ReplayKeepsInvariant(Step(st, es[0]), es[1..]);
    }
  }
}
