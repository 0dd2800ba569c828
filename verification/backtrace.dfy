/**
 * Fault injection of socket/os_unix.c: testing_fail_alloc and testing_test_fail match a pattern of
 * ';'-separated items against the calling functions, innermost first, and fire at the n-th match.
 */
module Backtrace {
  import opened Strings

  /** `*pos` marks the item: '=' must match the very next frame, '?' may be passed over. */
  function Body(rest: string): string {
    if rest != "" && (rest[0] == '=' || rest[0] == '?') then rest[1..] else rest
  }

  predicate Marked(rest: string, c: char) {
    rest != "" && rest[0] == c
  }

  /**
   * The greedy scan, on what is left of the pattern and of the frames. Going on to the next frame
   * keeps the position behind a mark already read.
   */
  predicate Scan(rest: string, frames: seq<string>)
    decreases |rest| + |frames|
  {
    frames != [] &&
    var body := Body(rest);
    var k := IndexOf(body, ';');
    if body[..k] <= frames[0] then k == |body| || Scan(body[k + 1..], frames[1..])
    else if Marked(rest, '?') && k < |body| then Scan(body[k + 1..], frames)
    else !Marked(rest, '=') && Scan(body, frames[1..])
  }

  lemma ScanIs(rest: string, frames: seq<string>)
    requires frames != []
    ensures var body := Body(rest);
      var k := IndexOf(body, ';');
      Scan(rest, frames) ==
        if body[..k] <= frames[0] then k == |body| || Scan(body[k + 1..], frames[1..])
        else if Marked(rest, '?') && k < |body| then Scan(body[k + 1..], frames)
        else !Marked(rest, '=') && Scan(body, frames[1..])
  {
    hide IndexOf, Body, Marked;
  }

  /** The matching loop of both functions, from frame `start` on. */
  method Match(func: string, frames: seq<string>, start: nat) returns (found: bool)
    requires start <= |frames|
    ensures found == Scan(func, frames[start..])
  {
    hide Scan, IndexOf, Body, Marked;
    ghost var goal := Scan(func, frames[start..]);
    var pos, i := 0, start;
    found := false;
    ghost var rest, left := func, frames[start..];
    while i < |frames|
      invariant 0 <= pos <= |func| && 0 <= i <= |frames| && !found
      invariant rest == func[pos..] && left == frames[i..] && goal == Scan(rest, left)
      decreases |func| - pos + |frames| - i
    {
      ScanIs(rest, left);
      assert left[0] == frames[i] && left[1..] == frames[i + 1..];
      var allowSkip, maybe;
      allowSkip, maybe, pos := ReadMark(func, pos);
      var body := func[pos..];
      var len := IndexOf(body, ';');
      var next := len < |body|;
      assert next ==> body[len + 1..] == func[pos + len + 1..];
      var matches := body[..len] <= frames[i];
      if !matches {
        if maybe && next {
          pos := pos + len + 1;
          rest := body[len + 1..];
          continue;
        }
        if allowSkip {
          i := i + 1;
          rest, left := body, left[1..];
          continue;
        }
        return false;
      }
      if !next {
        return true;
      }
      pos := pos + len + 1;
      i := i + 1;
      rest, left := body[len + 1..], left[1..];
    }
    NothingLeft(rest, left);
  }

  /** The head of the loop body: read and step over the mark at `pos`, if any. */
  method ReadMark(func: string, pos: nat) returns (allowSkip: bool, maybe: bool, after: nat)
    requires pos <= |func|
    ensures pos <= after <= |func| && func[after..] == Body(func[pos..])
    ensures allowSkip == !Marked(func[pos..], '=') && maybe == Marked(func[pos..], '?')
  {
    allowSkip, maybe, after := true, false, pos;
    if pos < |func| && func[pos] == '=' {
      allowSkip, after := false, pos + 1;
    } else if pos < |func| && func[pos] == '?' {
      maybe, after := true, pos + 1;
    }
  }

  lemma NothingLeft(rest: string, frames: seq<string>)
    requires frames == []
    ensures !Scan(rest, frames)
  {
  }

  // ---------- what a match means ----------

  /** The items of a pattern, marks included. */
  function Items(rest: string): (items: seq<string>)
    ensures items != []
  {
    var k := IndexOf(rest, ';');
    if k == |rest| then [rest] else [rest[..k]] + Items(rest[k + 1..])
  }

  /**
   * The pattern read as a relation: a plain item matches some later frame by prefix, one marked '='
   * the very next frame, one marked '?' the very next frame or none. At the end of a pattern '?'
   * requires a match all the same: of the next frame, or else as if the mark were not there.
   */
  ghost predicate Fits(items: seq<string>, frames: seq<string>)
    decreases |items|, if items == [] then 0 else |items[0]|
  {
    if items == [] then true
    else
      var item, rest := items[0], items[1..];
      if Marked(item, '=') then frames != [] && item[1..] <= frames[0] && Fits(rest, frames[1..])
      else if Marked(item, '?') && rest != [] then
        Fits(rest, frames) || (frames != [] && item[1..] <= frames[0] && Fits(rest, frames[1..]))
      else if Marked(item, '?') then frames != [] && (item[1..] <= frames[0] || Fits([item[1..]], frames[1..]))
      else exists k :: 0 <= k < |frames| && item <= frames[k] && Fits(rest, frames[k + 1..])
  }

  lemma IndexBehindMark(rest: string)
    requires rest != "" && rest[0] != ';'
    ensures IndexOf(rest, ';') == IndexOf(rest[1..], ';') + 1
  {
  }

  lemma SlicesBehindMark(rest: string, k: nat)
    requires rest != "" && k <= |rest[1..]|
    ensures rest[..k + 1] == [rest[0]] + rest[1..][..k]
    ensures k < |rest[1..]| ==> rest[k + 2..] == rest[1..][k + 1..]
  {
  }

  lemma ItemsUnfold(rest: string)
    ensures var k := IndexOf(rest, ';');
      Items(rest) == if k == |rest| then [rest] else [rest[..k]] + Items(rest[k + 1..])
  {
    hide IndexOf;
  }

  lemma ItemsOfPlain(rest: string)
    ensures var k := IndexOf(rest, ';');
      Items(rest)[0] == rest[..k] && Items(rest)[1..] == if k == |rest| then [] else Items(rest[k + 1..])
  {
    hide IndexOf, Items;
    ItemsUnfold(rest);
  }

  lemma ItemsOf(rest: string)
    ensures var body := Body(rest); var k := IndexOf(body, ';');
      && Items(rest)[0] == (if body == rest then body[..k] else [rest[0]] + body[..k])
      && Items(rest)[1..] == if k == |body| then [] else Items(body[k + 1..])
  {
    hide Items, IndexOf;
    var body := Body(rest);
    var k := IndexOf(body, ';');
    ItemsOfPlain(rest);
    if body != rest {
      IndexBehindMark(rest);
      SlicesBehindMark(rest, k);
    }
  }

  // ---------- the scan, item by item ----------

  /** What the greedy scan does with the items: the same choices, without positions in a string. */
  predicate Takes(items: seq<string>, frames: seq<string>)
    decreases |items| + |frames|
  {
    items == [] ||
    (frames != [] &&
    var text, rest := Body(items[0]), items[1..];
    if text <= frames[0] then Takes(rest, frames[1..])
    else if Marked(items[0], '?') && rest != [] then Takes(rest, frames)
    else !Marked(items[0], '=') && Takes([text] + rest, frames[1..]))
  }

  lemma TakesIs(items: seq<string>, frames: seq<string>)
    requires items != [] && frames != []
    ensures var text, rest := Body(items[0]), items[1..];
      Takes(items, frames) ==
        if text <= frames[0] then Takes(rest, frames[1..])
        else if Marked(items[0], '?') && rest != [] then Takes(rest, frames)
        else !Marked(items[0], '=') && Takes([text] + rest, frames[1..])
  {
    hide Body, Marked;
  }

  /** The pattern as the scan reads it: its first item, with its text, and what stands behind. */
  lemma HeadOf(rest: string)
    ensures var body := Body(rest); var k := IndexOf(body, ';');
      && Items(rest) != []
      && Body(Items(rest)[0]) == body[..k]
      && Marked(Items(rest)[0], '=') == Marked(rest, '=') && Marked(Items(rest)[0], '?') == Marked(rest, '?')
      && Items(rest)[1..] == if k == |body| then [] else Items(body[k + 1..])
  {
    hide Items, IndexOf;
    ItemsOf(rest);
  }

  lemma ItemsNonEmpty(rest: string)
    ensures Items(rest) != []
  {
  }

  /** Reading on behind a mark that was passed: a plain item stays as it is, a last optional one loses its mark. */
  lemma ItemsBehindMark(rest: string)
    requires !Marked(rest, '=')
    requires var body := Body(rest); Marked(rest, '?') ==> IndexOf(body, ';') == |body|
    ensures Items(Body(rest)) == [Body(Items(rest)[0])] + Items(rest)[1..]
  {
    hide IndexOf;
    HeadOf(rest);
    ItemsUnfold(Body(rest));
    if !Marked(rest, '?') {
      ItemsUnfold(rest);
    }
  }

  lemma {:induction false} ScanTakes(rest: string, frames: seq<string>)
    ensures Scan(rest, frames) == Takes(Items(rest), frames)
    decreases |rest| + |frames|
  {
    hide *;
    if frames == [] {
      ItemsNonEmpty(rest);
      ScanStarved(rest);
    } else {
      var body := Body(rest);
      var k := IndexOf(body, ';');
      BodyShrinks(rest);
      HeadOf(rest);
      ScanIs(rest, frames);
      TakesIs(Items(rest), frames);
      if k < |body| {
        ScanTakes(body[k + 1..], frames[1..]);
        ScanTakes(body[k + 1..], frames);
        ItemsNonEmpty(body[k + 1..]);
      } else {
        TakesNothing(frames[1..]);
      }
      if !Marked(rest, '=') && !(Marked(rest, '?') && k < |body|) {
        ScanTakes(body, frames[1..]);
        ItemsBehindMark(rest);
      }
    }
  }

  lemma ScanStarved(rest: string)
    ensures !Scan(rest, []) && (Items(rest) != [] ==> !Takes(Items(rest), []))
  {
    hide Items;
  }

  lemma BodyShrinks(rest: string)
    ensures |Body(rest)| <= |rest|
  {
  }

  lemma TakesNothing(frames: seq<string>)
    ensures Takes([], frames)
  {
  }

  /** A plain item may be looked for further out. */
  lemma FitsLater(items: seq<string>, frames: seq<string>)
    requires items != [] && !Marked(items[0], '=') && !Marked(items[0], '?') && frames != [] && Fits(items, frames[1..])
    ensures Fits(items, frames)
  {
    var k :| 0 <= k < |frames[1..]| && items[0] <= frames[1..][k] && Fits(items[1..], frames[1..][k + 1..]);
    assert frames[1..][k + 1..] == frames[k + 2..] && frames[k + 1] == frames[1..][k];
  }

  lemma {:induction false} TakesFits(items: seq<string>, frames: seq<string>)
    requires Takes(items, frames)
    ensures Fits(items, frames)
    decreases |items| + |frames|
  {
    if items != [] {
      var text, rest := Body(items[0]), items[1..];
      if text <= frames[0] {
        TakesFits(rest, frames[1..]);
      } else if Marked(items[0], '?') && rest != [] {
        TakesFits(rest, frames);
      } else {
        TakesFits([text] + rest, frames[1..]);
        if Marked(items[0], '?') {
          assert [text] + rest == [text];
        } else {
          assert [text] + rest == items;
          FitsLater(items, frames);
        }
      }
    }
  }

  /** The greedy scan is sound: whenever it matches, the pattern fits. */
  lemma MatchFits(rest: string, frames: seq<string>)
    requires Scan(rest, frames)
    ensures Fits(Items(rest), frames)
  {
    ScanTakes(rest, frames);
    TakesFits(Items(rest), frames);
  }

  /** An order-preserving embedding: each text is a prefix of a frame further out than the one before. */
  ghost predicate Embeds(texts: seq<string>, frames: seq<string>) {
    texts == [] || exists k :: 0 <= k < |frames| && texts[0] <= frames[k] && Embeds(texts[1..], frames[k + 1..])
  }

  /** The texts of the items that are not optional. */
  function Required(items: seq<string>): seq<string> {
    if items == [] then []
    else (if Marked(items[0], '?') then [] else [Body(items[0])]) + Required(items[1..])
  }

  lemma EmbedsEarlier(texts: seq<string>, frames: seq<string>, j: nat)
    requires j <= |frames| && Embeds(texts, frames[j..])
    ensures Embeds(texts, frames)
  {
    if texts != [] {
      var k :| 0 <= k < |frames[j..]| && texts[0] <= frames[j..][k] && Embeds(texts[1..], frames[j..][k + 1..]);
      assert frames[j..][k + 1..] == frames[j + k + 1..] && frames[j..][k] == frames[j + k];
    }
  }

  lemma {:induction false} FitsEmbeds(items: seq<string>, frames: seq<string>)
    requires Fits(items, frames)
    ensures Embeds(Required(items), frames)
    decreases |items|
  {
    if items != [] {
      var item, rest := items[0], items[1..];
      if Marked(item, '=') {
        FitsEmbeds(rest, frames[1..]);
        assert Required(items)[1..] == Required(rest);
      } else if Marked(item, '?') {
        if rest == [] {
          assert Required(items) == [];
        } else if Fits(rest, frames) {
          FitsEmbeds(rest, frames);
        } else {
          FitsEmbeds(rest, frames[1..]);
          EmbedsEarlier(Required(rest), frames, 1);
        }
        assert Required(items) == Required(rest);
      } else {
        var k :| 0 <= k < |frames| && item <= frames[k] && Fits(rest, frames[k + 1..]);
        FitsEmbeds(rest, frames[k + 1..]);
        assert Required(items)[1..] == Required(rest);
      }
    }
  }

  /** A match implies an order-preserving embedding of the required items into the frames. */
  lemma MatchEmbeds(func: string, frames: seq<string>)
    requires Scan(func, frames)
    ensures Embeds(Required(Items(func)), frames)
  {
    MatchFits(func, frames);
    FitsEmbeds(Items(func), frames);
  }

  predicate Unmarked(items: seq<string>) {
    forall item | item in items :: !Marked(item, '=') && !Marked(item, '?')
  }

  lemma {:induction false} UnmarkedFits(items: seq<string>, frames: seq<string>)
    requires Unmarked(items) && Embeds(items, frames)
    ensures Fits(items, frames)
    decreases |items|
  {
    if items != [] {
      assert items[0] in items && forall item | item in items[1..] :: item in items;
      var k :| 0 <= k < |frames| && items[0] <= frames[k] && Embeds(items[1..], frames[k + 1..]);
      UnmarkedFits(items[1..], frames[k + 1..]);
    }
  }

  lemma {:induction false} UnmarkedRequired(items: seq<string>)
    requires Unmarked(items)
    ensures Required(items) == items
  {
    if items != [] {
      assert items[0] in items;
      UnmarkedRequired(items[1..]);
    }
  }

  // ---------- the countdown ----------

  const ALLOC_WRAPPERS := ["testing_fail_alloc", "os_malloc", "os_zalloc", "os_calloc", "os_realloc",
                           "os_realloc_array", "os_strdup", "os_memdup"]
  const TEST_WRAPPERS := ["testing_test_fail"]

  /** The innermost frames that are the allocator's own, each at most once and in this order. */
  function SkipOwn(own: seq<string>, frames: seq<string>, i: nat): (j: nat)
    requires i <= |frames|
    ensures i <= j <= |frames|
  {
    if own == [] then i
    else SkipOwn(own[1..], frames, if i < |frames| && frames[i] == own[0] then i + 1 else i)
  }

  predicate Hit(own: seq<string>, func: string, frames: seq<string>) {
    Scan(func, frames[SkipOwn(own, frames, 0)..])
  }

  /** `chain` is what the wrappers leave on the stack: some of them, in their order. */
  predicate Chained(chain: seq<string>, own: seq<string>) {
    chain == [] || (own != [] && Chained(if chain[0] == own[0] then chain[1..] else chain, own[1..]))
  }

  lemma {:induction false} OwnSkipped(own: seq<string>, frames: seq<string>, i: nat, chain: seq<string>)
    requires Chained(chain, own) && i + |chain| <= |frames| && frames[i..i + |chain|] == chain
    requires i + |chain| < |frames| ==> frames[i + |chain|] !in own
    ensures SkipOwn(own, frames, i) == i + |chain|
  {
    if own != [] {
      assert own[0] in own && forall o | o in own[1..] :: o in own;
      if chain != [] {
        assert frames[i] == frames[i..i + |chain|][0] == chain[0];
        assert frames[i + 1..i + |chain|] == chain[1..];
      }
      var taken := i < |frames| && frames[i] == own[0];
      OwnSkipped(own[1..], frames, if taken then i + 1 else i, if taken then chain[1..] else chain);
    }
  }

  /** Whichever wrappers an allocation came through, the pattern is matched against their caller and out from there. */
  lemma HitIsOnCallers(own: seq<string>, func: string, chain: seq<string>, callers: seq<string>)
    requires Chained(chain, own) && (callers != [] ==> callers[0] !in own)
    ensures Hit(own, func, chain + callers) <==> Scan(func, callers)
  {
    OwnSkipped(own, chain + callers, 0, chain);
    assert (chain + callers)[|chain|..] == callers;
  }

  /**
   * An allocation through any of the wrappers that call os_malloc is matched against the wrapper's
   * caller, and so is a call of os_malloc itself; os_calloc comes through os_zalloc, and os_realloc_array
   * through os_realloc.
   */
  lemma AllocSeenFromCaller(via: seq<string>, func: string, callers: seq<string>)
    requires via in {[], ["os_zalloc"], ["os_zalloc", "os_calloc"], ["os_realloc"], ["os_realloc", "os_realloc_array"], ["os_strdup"], ["os_memdup"]}
    requires callers != [] ==> callers[0] !in ALLOC_WRAPPERS
    ensures Hit(ALLOC_WRAPPERS, func, ["testing_fail_alloc", "os_malloc"] + via + callers) <==> Scan(func, callers)
  {
    var own, chain := ALLOC_WRAPPERS, ["testing_fail_alloc", "os_malloc"] + via;
    ViaChained(via);
    assert own[1..][1..] == own[2..] && chain[1..][1..] == via;
    assert Chained(chain[1..], own[1..]);
    assert Chained(chain, own);
    HitIsOnCallers(own, func, chain, callers);
  }

  lemma ViaChained(via: seq<string>)
    requires via in {[], ["os_zalloc"], ["os_zalloc", "os_calloc"], ["os_realloc"], ["os_realloc", "os_realloc_array"], ["os_strdup"], ["os_memdup"]}
    ensures Chained(via, ALLOC_WRAPPERS[2..])
  {
    if via != [] {
      var own := ALLOC_WRAPPERS[2..];
      assert own == ["os_zalloc", "os_calloc", "os_realloc", "os_realloc_array", "os_strdup", "os_memdup"];
      assert Chained([], own[1..]) && Chained([], own[2..]) && Chained([], own[3..]) && Chained([], own[4..]) && Chained([], own[5..]) && Chained([], own[6..]);
      assert own[1..][1..] == own[2..] && own[2..][1..] == own[3..] && own[3..][1..] == own[4..] && own[4..][1..] == own[5..] && own[5..][1..] == own[6..];
      if |via| == 2 {
        assert via[1..][1..] == [];
        assert via[0] == "os_zalloc" ==> Chained(via[1..], own[1..]);
        assert via[0] == "os_realloc" ==> Chained(via[1..], own[3..]);
      } else {
        assert via[1..] == [];
      }
      assert via[0] == "os_memdup" ==> Chained(via, own[5..]);
      assert via[0] in {"os_memdup", "os_strdup"} ==> Chained(via, own[4..]);
      assert via[0] in {"os_memdup", "os_strdup"} ==> Chained(via, own[3..]);
      assert via[0] != "os_zalloc" ==> Chained(via, own[2..]);
      assert via[0] != "os_zalloc" ==> Chained(via, own[1..]);
    }
  }

  class FaultPoint {
    const own: seq<string>
    const func: string
    var failAfter: nat

    constructor ForAlloc(func: string, failAfter: nat)
      ensures own == ALLOC_WRAPPERS && this.func == func && this.failAfter == failAfter
    {
      own, this.func, this.failAfter := ALLOC_WRAPPERS, func, failAfter;
    }

    constructor ForTest(func: string, failAfter: nat)
      ensures own == TEST_WRAPPERS && this.func == func && this.failAfter == failAfter
    {
      own, this.func, this.failAfter := TEST_WRAPPERS, func, failAfter;
    }

    /** testing_fail_alloc and testing_test_fail; `frames` is what wpa_trace_calling_func finds. */
    method Fail(frames: seq<string>) returns (fire: bool)
      modifies this
      ensures (failAfter, fire) == Countdown(old(failAfter), Hit(own, func, frames))
    {
      if failAfter == 0 {
        return false;
      }
      var i, n := 0, 0;
      while n < |own|
        invariant n <= |own| && i <= |frames| && failAfter == old(failAfter)
        invariant SkipOwn(own, frames, 0) == SkipOwn(own[n..], frames, i)
      {
        assert own[n..][1..] == own[n + 1..];
        if i < |frames| && frames[i] == own[n] {
          i := i + 1;
        }
        n := n + 1;
      }
      var found := Match(func, frames, i);
      if !found {
        return false;
      }
      failAfter := failAfter - 1;
      fire := failAfter == 0;
    }
  }

  function Countdown(n: nat, hit: bool): (nat, bool) {
    if n == 0 || !hit then (n, false) else (n - 1, n == 1)
  }

  /** Which calls of a run fire, given the stack each is made from. */
  function Fires(own: seq<string>, func: string, n: nat, stacks: seq<seq<string>>): seq<bool> {
    if stacks == [] then []
    else
      var (n', fire) := Countdown(n, Hit(own, func, stacks[0]));
      [fire] + Fires(own, func, n', stacks[1..])
  }

  function HitCount(own: seq<string>, func: string, stacks: seq<seq<string>>): nat {
    if stacks == [] then 0
    else (if Hit(own, func, stacks[0]) then 1 else 0) + HitCount(own, func, stacks[1..])
  }

  /** Over any run with initial count n, exactly the n-th call whose stack the pattern matches fires. */
  lemma {:induction false} OnlyNthMatchFires(own: seq<string>, func: string, n: nat, stacks: seq<seq<string>>, k: nat)
    requires k < |stacks|
    ensures var fires := Fires(own, func, n, stacks);
      && |fires| == |stacks|
      && (fires[k] <==> Hit(own, func, stacks[k]) && n > 0 && HitCount(own, func, stacks[..k]) == n - 1)
  {
    hide Hit;
    var (n', fire) := Countdown(n, Hit(own, func, stacks[0]));
    if k == 0 {
      if |stacks| > 1 {
        OnlyNthMatchFires(own, func, n', stacks[1..], 0);
      }
    } else {
      OnlyNthMatchFires(own, func, n', stacks[1..], k - 1);
      assert stacks[..k][1..] == stacks[1..][..k - 1];
    }
  }
}
