/** A page as the replay sees it, and how an element selector is resolved on it. */
module Pages {
  import opened Common
  import opened Actions

  datatype Query =
    | ByTestId(id: string) | ByRole(role: string, name: string) | ByText(text: string)
    | ByCss(css: string) | ByXPath(xpath: string)

  /** How many elements each query matches; a query that is absent makes the locator raise. */
  datatype Frame = Frame(url: string, counts: map<Query, nat>)

  datatype Page = Page(main: Frame, frames: seq<Frame>)

  /** The page and everything else an attempt may depend on; `tick` tells any two moments apart. */
  datatype World = World(page: Page, tick: nat)

  predicate IsSet(field: Option<string>) {
    field.Some? && field.value != ""
  }

  /** The first frame with the selector's frame URL; the main frame if there is none. */
  function Scope(page: Page, frameUrl: Option<string>): Frame {
    if IsSet(frameUrl) then FrameFrom(page, frameUrl.value, 0) else page.main
  }

  function FrameFrom(page: Page, url: string, i: nat): Frame
    decreases |page.frames| - i
  {
    if i >= |page.frames| then page.main
    else if page.frames[i].url == url then page.frames[i]
    else FrameFrom(page, url, i + 1)
  }

  const BLANK := Selector(None, None, None, None, None, None, None, None)

  /** The strategy at one place of the robustness order, with the selector that names it alone, if its fields are set. */
  function Part(sel: Selector, rank: nat): seq<(Query, Selector)> {
    var used := BLANK.(frameUrl := sel.frameUrl);
    if rank == 0 then
      if IsSet(sel.testId) then [(ByTestId(sel.testId.value), used.(testId := sel.testId))] else []
    else if rank == 1 then
      if IsSet(sel.role) && IsSet(sel.accessibleName)
      then [(ByRole(sel.role.value, sel.accessibleName.value),
             used.(role := sel.role, accessibleName := sel.accessibleName))]
      else []
    else if rank == 2 then
      if IsSet(sel.textContent) then [(ByText(sel.textContent.value), used.(textContent := sel.textContent))] else []
    else if rank == 3 then
      if IsSet(sel.css) then [(ByCss(sel.css.value), used.(css := sel.css))] else []
    else
      if IsSet(sel.xpath) then [(ByXPath(sel.xpath.value), used.(xpath := sel.xpath))] else []
  }

  /** The strategies a selector offers, most robust first. */
  function Candidates(sel: Selector): seq<(Query, Selector)> {
    Part(sel, 0) + Part(sel, 1) + Part(sel, 2) + Part(sel, 3) + Part(sel, 4)
  }

  predicate IsUnique(frame: Frame, q: Query) {
    q in frame.counts && frame.counts[q] == 1
  }

  function FirstUnique(frame: Frame, candidates: seq<(Query, Selector)>): (r: Option<(Query, Selector)>)
    ensures r.Some? ==> exists k :: 0 <= k < |candidates| && r.value == candidates[k] && IsUnique(frame, candidates[k].0)
                                 && forall j :: 0 <= j < k ==> !IsUnique(frame, candidates[j].0)
    ensures r.None? ==> forall k :: 0 <= k < |candidates| ==> !IsUnique(frame, candidates[k].0)
  {
    if candidates == [] then None
    else if IsUnique(frame, candidates[0].0) then
      assert candidates[0] == candidates[0];
      Some(candidates[0])
    else
      var r := FirstUnique(frame, candidates[1..]);
      assert forall k :: 0 < k < |candidates| ==> candidates[k] == candidates[1..][k - 1];
      r
  }

  function Resolve(page: Page, sel: Selector): Option<(Query, Selector)> {
    FirstUnique(Scope(page, sel.frameUrl), Candidates(sel))
  }

  // ----- what resolving means, field by field -----

  /** The fields a strategy needs are there: `q` asks for what the selector says. */
  ghost predicate Offers(sel: Selector, q: Query) {
    match q
    case ByTestId(id) => sel.testId == Some(id) && id != ""
    case ByRole(role, name) => sel.role == Some(role) && role != "" && sel.accessibleName == Some(name) && name != ""
    case ByText(text) => sel.textContent == Some(text) && text != ""
    case ByCss(css) => sel.css == Some(css) && css != ""
    case ByXPath(xpath) => sel.xpath == Some(xpath) && xpath != ""
  }

  /** How far down the robustness order a strategy comes. */
  function Rank(q: Query): nat {
    match q
    case ByTestId(_) => 0
    case ByRole(_, _) => 1
    case ByText(_) => 2
    case ByCss(_) => 3
    case ByXPath(_) => 4
  }

  ghost predicate HasFrame(page: Page, url: string) {
    exists k :: 0 <= k < |page.frames| && page.frames[k].url == url
  }

  /** The frame a selector is about: the first with its URL; the main frame without a URL or such a frame. */
  ghost predicate IsScope(page: Page, frameUrl: Option<string>, frame: Frame) {
    if frameUrl.Some? && frameUrl.value != "" && HasFrame(page, frameUrl.value)
    then exists k :: 0 <= k < |page.frames| && frame == page.frames[k] && frame.url == frameUrl.value
                     && forall j :: 0 <= j < k ==> page.frames[j].url != frameUrl.value
    else frame == page.main
  }

  ghost predicate MatchesOne(frame: Frame, q: Query) {
    q in frame.counts && frame.counts[q] == 1
  }

  /** `used` offers `q` in the same frame and nothing else. */
  ghost predicate Names(used: Selector, q: Query, sel: Selector) {
    used.frameUrl == sel.frameUrl && Offers(used, q) && forall p :: Offers(used, p) ==> p == q
  }

  /** In the frame `q` is the first of the selector's strategies to match one element. */
  ghost predicate IsBestIn(frame: Frame, sel: Selector, q: Query) {
    Offers(sel, q) && MatchesOne(frame, q) && forall p :: Offers(sel, p) && Rank(p) < Rank(q) ==> !MatchesOne(frame, p)
  }

  /** `q` is the most robust strategy of the selector that matches exactly one element of its frame. */
  ghost predicate IsBest(page: Page, sel: Selector, q: Query) {
    exists frame :: IsScope(page, sel.frameUrl, frame) && IsBestIn(frame, sel, q)
  }

  /** Some strategy of the selector matches exactly one element of its frame. */
  ghost predicate ResolvesUniquely(page: Page, sel: Selector) {
    exists frame, q :: IsScope(page, sel.frameUrl, frame) && Offers(sel, q) && MatchesOne(frame, q)
  }

  lemma {:induction false} FrameFromIsFirst(page: Page, url: string, i: nat)
    requires i <= |page.frames| && forall j :: 0 <= j < i ==> page.frames[j].url != url
    ensures var frame := FrameFrom(page, url, i);
            if HasFrame(page, url)
            then exists k :: 0 <= k < |page.frames| && frame == page.frames[k] && frame.url == url
                             && forall j :: 0 <= j < k ==> page.frames[j].url != url
            else frame == page.main
    decreases |page.frames| - i
  {
    if i < |page.frames| && page.frames[i].url != url { FrameFromIsFirst(page, url, i + 1); }
  }

  lemma {:induction false} ScopeIsScope(page: Page, frameUrl: Option<string>, frame: Frame)
    ensures IsScope(page, frameUrl, frame) <==> frame == Scope(page, frameUrl)
  {
    if frameUrl.Some? && frameUrl.value != "" { FrameFromIsFirst(page, frameUrl.value, 0); }
  }

  /** The candidates from strategy `rank` on, up to but not including strategy `end`. */
  ghost predicate AreCandidates(candidates: seq<(Query, Selector)>, sel: Selector, rank: nat, end: nat) {
    && (forall k :: 0 <= k < |candidates| ==>
          rank <= Rank(candidates[k].0) < end && Offers(sel, candidates[k].0)
          && Names(candidates[k].1, candidates[k].0, sel))
    && (forall q :: Offers(sel, q) && rank <= Rank(q) < end ==> exists k :: 0 <= k < |candidates| && candidates[k].0 == q)
    && (forall j, k :: 0 <= j < k < |candidates| ==> Rank(candidates[j].0) < Rank(candidates[k].0))
  }

  lemma {:induction false} MoreCandidates(a: seq<(Query, Selector)>, b: seq<(Query, Selector)>, sel: Selector,
        rank: nat, mid: nat, end: nat)
    requires rank <= mid <= end && AreCandidates(a, sel, rank, mid) && AreCandidates(b, sel, mid, end)
    ensures AreCandidates(a + b, sel, rank, end)
  {
    forall q | Offers(sel, q) && rank <= Rank(q) < end ensures exists k :: 0 <= k < |a + b| && (a + b)[k].0 == q {
      if Rank(q) < mid {
        var k :| 0 <= k < |a| && a[k].0 == q;
        assert (a + b)[k].0 == q;
      } else {
        var k :| 0 <= k < |b| && b[k].0 == q;
        assert (a + b)[|a| + k].0 == q;
      }
    }
  }

  /** A selector has at most one query for each strategy. */
  lemma {:induction false} OneQueryEach(sel: Selector, p: Query, q: Query)
    requires Offers(sel, p) && Offers(sel, q) && Rank(p) == Rank(q)
    ensures p == q
  {
  }

  lemma {:induction false} OneCandidate(q: Query, used: Selector, sel: Selector)
    requires Offers(sel, q) && Names(used, q, sel)
    ensures AreCandidates([(q, used)], sel, Rank(q), Rank(q) + 1)
  {
    var one := [(q, used)];
    forall p | Offers(sel, p) && Rank(q) <= Rank(p) < Rank(q) + 1 ensures exists k :: 0 <= k < |one| && one[k].0 == p {
      OneQueryEach(sel, p, q);
      assert one[0].0 == p;
    }
  }

  lemma {:induction false} NoCandidate(sel: Selector, rank: nat)
    requires forall q :: Offers(sel, q) ==> Rank(q) != rank
    ensures AreCandidates([], sel, rank, rank + 1)
  {
  }

  lemma {:induction false} PartIsCandidate(sel: Selector, rank: nat)
    requires rank < 5
    ensures AreCandidates(Part(sel, rank), sel, rank, rank + 1)
  {
    if Part(sel, rank) == [] {
      NoCandidate(sel, rank);
    } else {
      var (q, used) := Part(sel, rank)[0];
      assert Part(sel, rank) == [(q, used)];
      OneCandidate(q, used, sel);
    }
  }

  /** The candidates are what the selector offers, each once, most robust first. */
  lemma {:induction false} CandidatesInOrder(sel: Selector)
    ensures AreCandidates(Candidates(sel), sel, 0, 5)
  {
    PartIsCandidate(sel, 0);
    PartIsCandidate(sel, 1);
    MoreCandidates(Part(sel, 0), Part(sel, 1), sel, 0, 1, 2);
    PartIsCandidate(sel, 2);
    MoreCandidates(Part(sel, 0) + Part(sel, 1), Part(sel, 2), sel, 0, 2, 3);
    PartIsCandidate(sel, 3);
    MoreCandidates(Part(sel, 0) + Part(sel, 1) + Part(sel, 2), Part(sel, 3), sel, 0, 3, 4);
    PartIsCandidate(sel, 4);
    MoreCandidates(Part(sel, 0) + Part(sel, 1) + Part(sel, 2) + Part(sel, 3), Part(sel, 4), sel, 0, 4, 5);
  }

  /** What the selector offers at a lower rank comes earlier. */
  lemma {:induction false} LowerRankIsEarlier(candidates: seq<(Query, Selector)>, sel: Selector, p: Query, k: nat)
    returns (j: nat)
    requires AreCandidates(candidates, sel, 0, 5) && k < |candidates|
    requires Offers(sel, p) && Rank(p) < Rank(candidates[k].0)
    ensures j < k && candidates[j].0 == p
  {
    j :| 0 <= j < |candidates| && candidates[j].0 == p;
  }

  lemma {:induction false} FirstUniqueIsBest(frame: Frame, candidates: seq<(Query, Selector)>, sel: Selector, k: nat)
    requires AreCandidates(candidates, sel, 0, 5) && k < |candidates| && IsUnique(frame, candidates[k].0)
    requires forall j :: 0 <= j < k ==> !IsUnique(frame, candidates[j].0)
    ensures IsBestIn(frame, sel, candidates[k].0) && Names(candidates[k].1, candidates[k].0, sel)
  {
    var q := candidates[k].0;
    forall p | Offers(sel, p) && Rank(p) < Rank(q) ensures !MatchesOne(frame, p) {
      var j := LowerRankIsEarlier(candidates, sel, p, k);
      assert !IsUnique(frame, candidates[j].0);
    }
  }

  lemma {:induction false} FirstUniqueAt(frame: Frame, candidates: seq<(Query, Selector)>) returns (k: nat)
    requires FirstUnique(frame, candidates).Some?
    ensures k < |candidates| && FirstUnique(frame, candidates).value == candidates[k] && IsUnique(frame, candidates[k].0)
    ensures forall j :: 0 <= j < k ==> !IsUnique(frame, candidates[j].0)
  {
    k :| 0 <= k < |candidates| && FirstUnique(frame, candidates).value == candidates[k]
         && IsUnique(frame, candidates[k].0) && forall j :: 0 <= j < k ==> !IsUnique(frame, candidates[j].0);
  }

  lemma {:induction false} NoneUniqueNoMatch(frame: Frame, candidates: seq<(Query, Selector)>, sel: Selector, q: Query)
    requires AreCandidates(candidates, sel, 0, 5) && FirstUnique(frame, candidates).None? && Offers(sel, q)
    ensures !MatchesOne(frame, q)
  {
    var k :| 0 <= k < |candidates| && candidates[k].0 == q;
    assert !IsUnique(frame, candidates[k].0);
  }

  /** Resolving finds the most robust strategy that matches one element, and a selector naming it alone. */
  lemma {:induction false} ResolvesToBest(page: Page, sel: Selector)
    ensures var r := Resolve(page, sel);
            r.Some? ==> IsBest(page, sel, r.value.0) && Names(r.value.1, r.value.0, sel)
  {
    var frame, candidates := Scope(page, sel.frameUrl), Candidates(sel);
    ScopeIsScope(page, sel.frameUrl, frame);
    CandidatesInOrder(sel);
    if FirstUnique(frame, candidates).Some? {
      var k := FirstUniqueAt(frame, candidates);
      FirstUniqueIsBest(frame, candidates, sel, k);
    }
  }

  lemma {:induction false} ResolveIffUnique(page: Page, sel: Selector)
    ensures Resolve(page, sel).Some? <==> ResolvesUniquely(page, sel)
  {
    var frame, candidates := Scope(page, sel.frameUrl), Candidates(sel);
    ScopeIsScope(page, sel.frameUrl, frame);
    CandidatesInOrder(sel);
    if FirstUnique(frame, candidates).Some? {
      var k := FirstUniqueAt(frame, candidates);
      FirstUniqueIsBest(frame, candidates, sel, k);
    } else {
      forall other, q | IsScope(page, sel.frameUrl, other) && Offers(sel, q) ensures !MatchesOne(other, q) {
        ScopeIsScope(page, sel.frameUrl, other);
        NoneUniqueNoMatch(frame, candidates, sel, q);
      }
    }
  }

  /** The best strategy is one and only one, so whoever resolves the selector finds the same element. */
  lemma {:induction false} BestIsResolved(page: Page, sel: Selector, q: Query)
    requires IsBest(page, sel, q)
    ensures Resolve(page, sel).Some? && Resolve(page, sel).value.0 == q
  {
    ResolveIffUnique(page, sel);
    ResolvesToBest(page, sel);
    OneBest(page, sel, q, Resolve(page, sel).value.0);
  }

  lemma {:induction false} OneBest(page: Page, sel: Selector, p: Query, q: Query)
    requires IsBest(page, sel, p) && IsBest(page, sel, q)
    ensures p == q
  {
    var a :| IsScope(page, sel.frameUrl, a) && IsBestIn(a, sel, p);
    var b :| IsScope(page, sel.frameUrl, b) && IsBestIn(b, sel, q);
    ScopeIsScope(page, sel.frameUrl, a);
    ScopeIsScope(page, sel.frameUrl, b);
    OneQueryEach(sel, p, q);
  }

  method FindScope(page: Page, frameUrl: Option<string>) returns (scope: Frame)
    ensures scope == Scope(page, frameUrl)
  {
    scope := page.main;
    if IsSet(frameUrl) {
      var i := 0;
      while i < |page.frames|
        invariant 0 <= i <= |page.frames| && scope == page.main
        invariant FrameFrom(page, frameUrl.value, i) == FrameFrom(page, frameUrl.value, 0)
      {
        if page.frames[i].url == frameUrl.value {
          scope := page.frames[i];
          break;
        }
        i := i + 1;
      }
    }
  }

  method TryInOrder(scope: Frame, candidates: seq<(Query, Selector)>) returns (r: Option<(Query, Selector)>)
    ensures r == FirstUnique(scope, candidates)
  {
    for k := 0 to |candidates|
      invariant FirstUnique(scope, candidates) == FirstUnique(scope, candidates[k..])
    {
      var (query, used) := candidates[k];
      assert candidates[k..][1..] == candidates[k + 1..];
      if query !in scope.counts {
        continue;
      }
      if scope.counts[query] == 1 {
        return Some((query, used));
      }
    }
    return None;
  }

  /** `resolve_selector` as written; None is the SelectorResolutionError. */
  method ResolveSelector(page: Page, sel: Selector) returns (r: Option<(Query, Selector)>)
    ensures r == Resolve(page, sel)
    ensures r.Some? ==> IsBest(page, sel, r.value.0) && Names(r.value.1, r.value.0, sel)
    ensures r.Some? <==> ResolvesUniquely(page, sel)
  {
    ResolvesToBest(page, sel);
    ResolveIffUnique(page, sel);
    var scope := FindScope(page, sel.frameUrl);
    r := TryInOrder(scope, Candidates(sel));
  }
}
