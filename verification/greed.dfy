/**
 * When the greedy scan of the fault injection loses nothing: for which patterns it matches every
 * stack that the pattern, read as a relation, fits. The answer is a condition on the pattern alone.
 */
module Greed {
  import opened Strings
  import opened Backtrace

  // ---------- the condition ----------

  predicate Plain(item: string) {
    !Marked(item, '=') && !Marked(item, '?')
  }

  /** Some frame starts with both texts. */
  predicate Meet(x: string, y: string) {
    x <= y || y <= x
  }

  predicate AllOptional(z: string) {
    forall i | 0 <= i < |z| :: z[i] == '?'
  }

  /** Frames put in front never spoil a fit: up to the next plain item no '=' demands a text of its own. */
  predicate Free(items: seq<string>) {
    items == [] ||
    if Marked(items[0], '=') then |items[0]| == 1 && Free(items[1..])
    else if Marked(items[0], '?') && items[1..] != [] then Free(items[1..])
    else Marked(items[0], '?') ==> FreeEnd(items[0][1..])
  }

  /** The same for what stands behind the '?' of a last item, whose marks are read again. */
  predicate FreeEnd(z: string) {
    (!Marked(z, '=') && !Marked(z, '?')) || z == "=" || AllOptional(z)
  }

  /** The first item that cannot be passed over. */
  function Lead(items: seq<string>): string
    requires items != []
  {
    if Marked(items[0], '?') && items[1..] != [] then Lead(items[1..]) else items[0]
  }

  predicate Doubled(item: string) {
    Marked(item, '?') && (Marked(item[1..], '?') || Marked(item[1..], '='))
  }

  /** An optional text in front of the items never takes the frame they need. */
  predicate Clear(x: string, items: seq<string>)
    requires items != []
  {
    !Doubled(Lead(items)) && !Meet(x, Body(Lead(items)))
  }

  /** At no item does taking the first match lose a fit. */
  predicate Safe(items: seq<string>) {
    items == [] ||
    (Safe(items[1..]) &&
    if Marked(items[0], '=') then true
    else if Marked(items[0], '?') then items[1..] != [] ==> Clear(items[0][1..], items[1..])
    else Free(items[1..]))
  }

  // ---------- what a safe item keeps ----------

  lemma {:induction false} OptionalEndLater(item: string, x: string, g: seq<string>)
    requires Marked(item, '?') && AllOptional(item) && Fits([item], g)
    ensures Fits([item], [x] + g)
    decreases |item|
  {
    var z := item[1..];
    assert ([x] + g)[1..] == g;
    if z == "" {
      assert 0 <= 0 < |g| && z <= g[0] && Fits([], g[0 + 1..]);
    } else if z <= g[0] {
      assert z[1..] <= g[0] by {
        assert forall i | 0 <= i < |z| - 1 :: z[1..][i] == z[i];
      }
    } else {
      OptionalEndLater(z, g[0], g[1..]);
      assert [g[0]] + g[1..] == g;
    }
  }

  lemma PlainEndLater(item: string, x: string, g: seq<string>)
    requires Marked(item, '?') && !Marked(item[1..], '=') && !Marked(item[1..], '?') && Fits([item], g)
    ensures Fits([item], [x] + g)
  {
    var z := item[1..];
    assert ([x] + g)[1..] == g;
    if z <= g[0] {
      assert Fits([], g[1..]);
      assert Fits([z], g);
    } else {
      FitsLater([z], g);
    }
  }

  lemma {:induction false} FreeFits(items: seq<string>, x: string, g: seq<string>)
    requires Free(items) && Fits(items, g)
    ensures Fits(items, [x] + g)
    decreases |items|
  {
    if items != [] {
      var item, rest := items[0], items[1..];
      assert ([x] + g)[1..] == g;
      if Marked(item, '=') {
        FreeFits(rest, g[0], g[1..]);
        assert [g[0]] + g[1..] == g;
      } else if Marked(item, '?') && rest != [] {
        if !Fits(rest, g) {
          assert [g[0]] + g[1..] == g;
          FreeFits(rest, g[0], g[1..]);
        }
        FreeFits(rest, x, g);
      } else if Marked(item, '?') {
        FreeEndLater(item, x, g);
      } else {
        FitsLater(items, [x] + g);
      }
    }
  }

  lemma FreeEndLater(item: string, x: string, g: seq<string>)
    requires Marked(item, '?') && FreeEnd(item[1..]) && Fits([item], g)
    ensures Fits([item], [x] + g)
  {
    var z := item[1..];
    if !Marked(z, '=') && !Marked(z, '?') {
      PlainEndLater(item, x, g);
    } else if z == "=" {
      assert ([x] + g)[1..] == g;
      assert z[1..] == "" && Fits([], g[1..]);
      assert Fits([z], g);
    } else {
      assert forall i | 0 <= i < |item| :: item[i] == if i == 0 then '?' else z[i - 1];
      OptionalEndLater(item, x, g);
    }
  }

  lemma {:induction false} FreeFitsAll(items: seq<string>, h: seq<string>, g: seq<string>)
    requires Free(items) && Fits(items, g)
    ensures Fits(items, h + g)
    decreases |h|
  {
    if h == [] {
      assert h + g == g;
    } else {
      FreeFitsAll(items, h[1..], g);
      FreeFits(items, h[0], h[1..] + g);
      assert h + g == [h[0]] + (h[1..] + g);
    }
  }

  /** If the frame starts with a clear optional text, the items behind it do not need that frame. */
  lemma {:induction false} ClearPasses(x: string, items: seq<string>, g: seq<string>)
    requires items != [] && Clear(x, items) && g != [] && x <= g[0] && Fits(items, g)
    ensures Fits(items, g[1..])
    decreases |items|
  {
    var item, rest := items[0], items[1..];
    if Marked(item, '?') && rest != [] {
      if Fits(rest, g) {
        ClearPasses(x, rest, g);
      }
    } else {
      if Body(item) <= g[0] {
        BothStart(x, Body(item), g[0]);
      }
      if Marked(item, '?') {
        EndElsewhere(item, g);
      } else if !Marked(item, '=') {
        PlainElsewhere(items, g);
      }
    }
  }

  lemma TailOfTail<T>(s: seq<T>, k: nat)
    requires 0 < k < |s|
    ensures s[1..][k - 1] == s[k] && s[1..][k..] == s[k + 1..]
  {
  }

  /** A plain item that the first frame does not start is found behind it. */
  lemma PlainElsewhere(items: seq<string>, g: seq<string>)
    requires items != [] && Plain(items[0]) && g != [] && !(items[0] <= g[0]) && Fits(items, g)
    ensures Fits(items, g[1..])
  {
    var k :| 0 <= k < |g| && items[0] <= g[k] && Fits(items[1..], g[k + 1..]);
    TailOfTail(g, k);
    assert g[1..][k - 1 + 1..] == g[k + 1..];
  }

  /** The same for a last item that loses its '?' at that frame. */
  lemma EndElsewhere(item: string, g: seq<string>)
    requires Marked(item, '?') && !Doubled(item) && g != [] && !(item[1..] <= g[0]) && Fits([item], g)
    ensures Fits([item], g[1..])
  {
    var z, h := item[1..], g[1..];
    assert [item][1..] == [];
    assert Fits([z], h) && h != [];
    if !(z <= h[0]) {
      PlainElsewhere([z], h);
    }
  }

  lemma BothStart(x: string, y: string, frame: string)
    requires x <= frame && y <= frame
    ensures Meet(x, y)
  {
    assert x == frame[..|x|] && y == frame[..|y|];
    if |x| <= |y| {
      assert x == y[..|x|];
    } else {
      assert y == x[..|y|];
    }
  }

  /** Without an unsafe item the scan matches whatever fits. */
  lemma {:induction false} SafeTakes(items: seq<string>, frames: seq<string>)
    requires Safe(items) && Fits(items, frames)
    ensures Takes(items, frames)
    decreases |items| + |frames|
  {
    if items != [] {
      var item, rest := items[0], items[1..];
      if Marked(item, '=') {
        SafeTakes(rest, frames[1..]);
      } else if Marked(item, '?') && rest != [] {
        SafeOptional(items, frames);
      } else if Marked(item, '?') {
        if !(item[1..] <= frames[0]) {
          SafeTakes([item[1..]], frames[1..]);
          assert [item[1..]] + rest == [item[1..]];
        }
      } else {
        SafePlain(items, frames);
      }
    }
  }

  lemma {:induction false} SafeOptional(items: seq<string>, frames: seq<string>)
    requires Safe(items) && Fits(items, frames) && items != [] && Marked(items[0], '?') && items[1..] != []
    ensures Takes(items, frames)
    decreases |items| + |frames|, 0
  {
    var x, rest := items[0][1..], items[1..];
    if frames != [] && x <= frames[0] {
      if Fits(rest, frames) {
        ClearPasses(x, rest, frames);
      }
      SafeTakes(rest, frames[1..]);
    } else {
      SafeTakes(rest, frames);
      SomeFrame(rest, frames);
    }
  }

  lemma SomeFrame(items: seq<string>, frames: seq<string>)
    requires items != [] && Takes(items, frames)
    ensures frames != []
  {
  }

  lemma {:induction false} SafePlain(items: seq<string>, frames: seq<string>)
    requires Safe(items) && Fits(items, frames) && items != [] && !Marked(items[0], '?') && !Marked(items[0], '=')
    ensures Takes(items, frames)
    decreases |items| + |frames|, 0
  {
    var item, rest := items[0], items[1..];
    var k :| 0 <= k < |frames| && item <= frames[k] && Fits(rest, frames[k + 1..]);
    if item <= frames[0] {
      FreeFitsAll(rest, frames[1..k + 1], frames[k + 1..]);
      assert frames[1..k + 1] + frames[k + 1..] == frames[1..];
      SafeTakes(rest, frames[1..]);
    } else {
      PlainElsewhere(items, frames);
      SafeTakes(items, frames[1..]);
      assert [item] + rest == items;
    }
  }

  // ---------- what an unsafe item loses ----------

  /** The shortest stack that fits: each item's text, the optional ones passed over. */
  function Example(items: seq<string>): seq<string> {
    if items == [] then []
    else (if Marked(items[0], '?') && items[1..] != [] then [] else [Body(items[0])]) + Example(items[1..])
  }

  lemma {:induction false} ExampleFits(items: seq<string>)
    ensures Fits(items, Example(items))
  {
    if items != [] {
      ExampleFits(items[1..]);
      var f := Example(items);
      if !(Marked(items[0], '?') && items[1..] != []) {
        assert f[0] == Body(items[0]) && f[1..] == Example(items[1..]);
        assert f[0 + 1..] == f[1..];
      } else {
        assert f == Example(items[1..]);
      }
    }
  }

  lemma {:induction false} ExampleShortest(items: seq<string>, f: seq<string>)
    requires Fits(items, f)
    ensures |Example(items)| <= |f|
    decreases |items|
  {
    if items != [] {
      var item, rest := items[0], items[1..];
      if Marked(item, '=') {
        ExampleShortest(rest, f[1..]);
      } else if Marked(item, '?') && rest != [] {
        ExampleShortest(rest, if Fits(rest, f) then f else f[1..]);
      } else if !Marked(item, '?') {
        var k :| 0 <= k < |f| && item <= f[k] && Fits(rest, f[k + 1..]);
        ExampleShortest(rest, f[k + 1..]);
      }
    }
  }

  /** Up to the next plain item some '=' demands a text, so a long stretch of other frames stops the pattern. */
  predicate Stops(items: seq<string>) {
    items != [] &&
    if Marked(items[0], '=') then |items[0]| > 1 || Stops(items[1..])
    else if Marked(items[0], '?') && items[1..] != [] then Stops(items[1..])
    else Marked(items[0], '?') && Marked(items[0][1..], '=') && |items[0]| > 2
  }

  function Blanks(n: nat): seq<string> {
    seq(n, i => "")
  }

  lemma BlanksTail(n: nat, g: seq<string>)
    requires n > 0
    ensures (Blanks(n) + g)[0] == "" && (Blanks(n) + g)[1..] == Blanks(n - 1) + g
  {
  }

  lemma {:induction false} BlanksStop(items: seq<string>, n: nat, g: seq<string>)
    requires Stops(items) && n > |items|
    ensures !Fits(items, Blanks(n) + g)
    decreases |items|
  {
    var item, rest := items[0], items[1..];
    BlanksTail(n, g);
    if Marked(item, '=') {
      if |item| == 1 {
        BlanksStop(rest, n - 1, g);
      }
    } else if rest != [] {
      BlanksStop(rest, n, g);
      BlanksStop(rest, n - 1, g);
    } else {
      BlanksTail(n - 1, g);
    }
  }

  lemma ShiftedPrefix(v: string)
    requires v <= "?" + v
    ensures AllOptional("?" + v)
  {
    var s := "?" + v;
    var i := 0;
    while i < |v|
      invariant i <= |v| && forall k | 0 <= k <= i :: s[k] == '?'
    {
      assert s[i + 1] == v[i] == s[..|v|][i] == s[i];
      i := i + 1;
    }
  }

  lemma MarkedPrefix(z: string, x: string)
    requires z <= x && Marked(z, '?')
    ensures Marked(x, '?')
  {
    assert x[0] == z[0];
  }

  lemma DoubledEndSlips(item: string, x: string)
    requires Marked(item, '?') && Marked(item[1..], '?') && !AllOptional(item[1..]) && !Marked(x, '?')
    ensures !Fits([item], [x, item[1..]])
  {
    var z := item[1..];
    var v, f, one, last := z[1..], [x, z], [z], [item];
    assert f[1..] == one && last[1..] == [] && one[1..] == [];
    assert z == "?" + v;
    if z <= x {
      MarkedPrefix(z, x);
    }
    if v <= z {
      ShiftedPrefix(v);
    }
    assert !Fits([v], []);
  }

  /** Behind the optional items that nothing frees or stops stands an empty '=' or a doubly marked end. */
  lemma {:induction false} UnfreedLead(items: seq<string>)
    requires items != [] && !Free(items) && !Stops(items)
    ensures Doubled(Lead(items)) || Lead(items) == "="
  {
    if Marked(items[0], '?') && items[1..] != [] {
      UnfreedLead(items[1..]);
    } else if Marked(items[0], '=') {
      assert items[0] == "=";
    }
  }

  lemma UnfreedUnclear(x: string, items: seq<string>)
    requires items != [] && !Free(items) && !Stops(items)
    ensures !Clear(x, items)
  {
    UnfreedLead(items);
    if Lead(items) == "=" {
      assert Body(Lead(items)) == "";
    }
  }

  lemma {:induction false} ExampleSlips(items: seq<string>, x: string)
    requires Safe(items) && !Free(items) && !Stops(items) && !Marked(x, '?')
    ensures !Fits(items, [x] + Example(items))
    decreases |items|
  {
    var item, rest, f := items[0], items[1..], [x] + Example(items);
    if Marked(item, '=') {
      ExampleSlips(rest, "");
      assert Body(item) == "" && f[1..] == [""] + Example(rest);
    } else if rest != [] {
      UnfreedUnclear(item[1..], rest);
    } else {
      assert item[1..] != "=";
      assert items == [item] && Example(rest) == [] && f == [x, item[1..]];
      DoubledEndSlips(item, x);
    }
  }

  /** Frames that, put with the text `a` in front of a stack the items fit, keep them from fitting. */
  lemma Spoiler(items: seq<string>, a: string) returns (h: seq<string>)
    requires Safe(items) && !Free(items) && !Marked(a, '?')
    ensures !Fits(items, h + ([a] + Example(items)))
  {
    if Stops(items) {
      h := Blanks(|items| + 1);
      BlanksStop(items, |items| + 1, [a] + Example(items));
    } else {
      h := [];
      ExampleSlips(items, a);
      assert h + ([a] + Example(items)) == [a] + Example(items);
    }
  }

  /** A plain item finds the frame made for it, however far out. */
  lemma FitsBehind(items: seq<string>, h: seq<string>)
    requires items != [] && !Marked(items[0], '?') && !Marked(items[0], '=')
    ensures Fits(items, h + ([items[0]] + Example(items[1..])))
  {
    var f := h + ([items[0]] + Example(items[1..]));
    ExampleFits(items[1..]);
    assert f[|h|] == items[0] && f[|h| + 1..] == Example(items[1..]);
  }

  /** A plain item in front of items that are not free: a stack with two places for it, of which only the second will do. */
  lemma PlainLoses(items: seq<string>) returns (f: seq<string>)
    requires items != [] && !Marked(items[0], '?') && !Marked(items[0], '=') && Safe(items[1..]) && !Free(items[1..])
    ensures Fits(items, f) && !Takes(items, f)
  {
    hide Safe, Free, Example;
    var a, rest := items[0], items[1..];
    var h := Spoiler(rest, a);
    var behind := h + ([a] + Example(rest));
    f := [a] + behind;
    assert f[1..] == behind;
    FitsBehind(items, h);
    FitsLater(items, f);
    if Takes(rest, behind) {
      TakesFits(rest, behind);
    }
  }

  lemma {:induction false} LeadLonger(items: seq<string>, y: string)
    requires items != [] && Body(Lead(items)) <= y
    ensures Example(items) != [] && Fits(items, [y] + Example(items)[1..])
    decreases |items|
  {
    var rest := items[1..];
    if Marked(items[0], '?') && rest != [] {
      LeadLonger(rest, y);
      assert Example(items) == Example(rest);
    } else {
      ExampleFits(rest);
      assert Example(items)[1..] == Example(rest);
      var f := [y] + Example(rest);
      assert f[1..] == f[0 + 1..] == Example(rest);
    }
  }

  lemma {:induction false} DoubledLead(items: seq<string>, x: string) returns (z: string)
    requires items != [] && Doubled(Lead(items))
    ensures Fits(items, [x, z]) && !Fits(items, [z]) && !Fits(items, [])
    decreases |items|
  {
    if items[1..] != [] {
      z := DoubledLead(items[1..], x);
      assert [z][1..] == [];
    } else {
      var text := items[0][1..];
      z := text[1..];
      var one: seq<string>, two: seq<string> := [text], [z];
      assert items == [items[0]] && one[1..] == [] && two[1..] == [] && [x, z][1..] == two;
      assert Fits([text], [z]);
    }
  }

  lemma UnclearLoses(items: seq<string>) returns (f: seq<string>)
    requires items != [] && Marked(items[0], '?') && items[1..] != [] && !Clear(items[0][1..], items[1..])
    ensures Fits(items, f) && !Takes(items, f)
  {
    var x, rest := items[0][1..], items[1..];
    if Doubled(Lead(rest)) {
      var z := DoubledLead(rest, x);
      f := [x, z];
      assert f[1..] == [z];
    } else {
      var y := Body(Lead(rest));
      var longer := if x <= y then y else x;
      LeadLonger(rest, longer);
      f := [longer] + Example(rest)[1..];
      assert f[1..] == Example(rest)[1..];
      if Fits(rest, f[1..]) {
        ExampleShortest(rest, f[1..]);
      }
    }
    if Takes(rest, f[1..]) {
      TakesFits(rest, f[1..]);
    }
  }

  /** With an unsafe item there is a stack that fits and does not match. */
  lemma {:induction false} UnsafeLoses(items: seq<string>) returns (f: seq<string>)
    requires !Safe(items)
    ensures Fits(items, f) && !Takes(items, f)
    decreases |items|
  {
    var item, rest := items[0], items[1..];
    if !Safe(rest) {
      var g := UnsafeLoses(rest);
      f := [Body(item)] + g;
      assert f[1..] == f[0 + 1..] == g;
    } else if Marked(item, '?') {
      f := UnclearLoses(items);
    } else {
      f := PlainLoses(items);
    }
  }

  // ---------- the theorems ----------

  /**
   * The exact condition, for every pattern: the greedy scan matches just the stacks the pattern fits
   * if and only if no item is unsafe.
   */
  lemma GreedExact(func: string)
    ensures (forall frames: seq<string> :: Scan(func, frames) <==> Fits(Items(func), frames)) <==> Safe(Items(func))
  {
    var items := Items(func);
    if Safe(items) {
      forall frames: seq<string> ensures Scan(func, frames) <==> Fits(items, frames) {
        ScanTakes(func, frames);
        if Scan(func, frames) {
          MatchFits(func, frames);
        }
        if Fits(items, frames) {
          SafeTakes(items, frames);
        }
      }
    } else {
      var f := UnsafeLoses(items);
      ScanTakes(func, f);
    }
  }

  /** An item that demands a text of the very next frame. */
  predicate Demands(item: string) {
    Marked(item, '=') && |item| > 1
  }

  /** Without '?', an item is unsafe exactly when some '=' with a text stands behind a plain item. */
  lemma {:induction false} SafeWithoutOptionals(items: seq<string>)
    requires forall item | item in items :: !Marked(item, '?')
    ensures Safe(items) <==> forall i, j | 0 <= i < j < |items| :: !(Plain(items[i]) && Demands(items[j]))
  {
    if items != [] {
      var rest := items[1..];
      assert items[0] in items && forall item | item in rest :: item in items;
      SafeWithoutOptionals(rest);
      if Safe(rest) {
        FreeWithoutOptionals(rest);
      }
      if forall i, j | 0 <= i < j < |items| :: !(Plain(items[i]) && Demands(items[j])) {
        forall i, j | 0 <= i < j < |rest| ensures !(Plain(rest[i]) && Demands(rest[j])) {
          assert !(Plain(items[i + 1]) && Demands(items[j + 1]));
        }
        forall j | 0 <= j < |rest| ensures Plain(items[0]) ==> !Demands(rest[j]) {
          assert !(Plain(items[0]) && Demands(items[j + 1]));
        }
      }
    }
  }

  lemma {:induction false} FreeWithoutOptionals(items: seq<string>)
    requires (forall item | item in items :: !Marked(item, '?')) && Safe(items)
    ensures Free(items) <==> forall j | 0 <= j < |items| :: !Demands(items[j])
  {
    if items != [] {
      var rest := items[1..];
      assert items[0] in items && forall item | item in rest :: item in items;
      FreeWithoutOptionals(rest);
      assert forall j | 0 <= j < |rest| :: rest[j] == items[j + 1];
    }
  }

  /** The condition for a pattern without '?': no '=' with a text stands behind a plain item. */
  lemma GreedExactWithoutOptionals(func: string)
    requires forall item | item in Items(func) :: !Marked(item, '?')
    ensures var items := Items(func);
      (forall frames: seq<string> :: Scan(func, frames) <==> Fits(items, frames))
      <==> forall i, j | 0 <= i < j < |items| :: !(Plain(items[i]) && Demands(items[j]))
  {
    GreedExact(func);
    SafeWithoutOptionals(Items(func));
  }

  /** Without marks the scan matches exactly when the items embed into the frames in order. */
  lemma UnmarkedMatchIff(func: string, frames: seq<string>)
    requires Unmarked(Items(func))
    ensures Scan(func, frames) <==> Embeds(Items(func), frames)
  {
    var items := Items(func);
    UnmarkedRequired(items);
    if Scan(func, frames) {
      MatchEmbeds(func, frames);
    }
    if Embeds(items, frames) {
      UnmarkedFits(items, frames);
      SafeWithoutOptionals(items);
      SafeTakes(items, frames);
      ScanTakes(func, frames);
    }
  }

  /** Greed at a plain item: the first "a" is taken, and "=b" faces "c" although a later "a" is followed by "b". */
  lemma GreedMissesExactItem()
    ensures var frames := ["a", "c", "a", "b"]; !Takes(["a", "=b"], frames) && Fits(["a", "=b"], frames)
  {
    var frames := ["a", "c", "a", "b"];
    assert frames[1..] == ["c", "a", "b"] && frames[3..] == ["b"] && ["a", "=b"][1..] == ["=b"] && ["=b"][1..] == [];
    assert Body("=b") == "b" && Body("a") == "a";
    assert !("b" <= "c") by {
      assert "b"[0] != "c"[0];
    }
    assert !Takes(["=b"], ["c", "a", "b"]);
    assert Fits([], ["b"][1..]);
    assert Fits(["=b"], ["b"]);
    assert "a" <= frames[2];
  }

  /** Greed at an optional item: "?a" takes the one frame that the "a" behind it needs. */
  lemma GreedTakesOptional()
    ensures !Takes(["?a", "a"], ["a"]) && Fits(["?a", "a"], ["a"])
  {
    assert ["?a", "a"][1..] == ["a"] && ["a"][1..] == [] && Body("?a") == "a" && Body("a") == "a";
    assert !Takes(["a"], []);
    assert 0 <= 0 < |["a"]| && "a" <= ["a"][0] && Fits([], ["a"][0 + 1..]);
    assert Fits(["a"], ["a"]);
  }
}
