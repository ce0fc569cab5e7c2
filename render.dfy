/**
 * The list serialiser of the project modal: `items.map(x => open + x + close).join('')`.
 * The features are rendered with `<li>`/`</li>` and the technology tags with
 * `<span class="tag">`/`</span>`. Its partner is a parser that reads such a
 * string back into its items; the two are inverse on items free of markup.
 */
module Render {
  import opened Wrappers

  const ItemOpen := "<li>"
  const ItemClose := "</li>"
  const TagOpen := "<span class=\"tag\">"
  const TagClose := "</span>"

  /** One item wrapped in its opening and closing markup. */
  function Wrap(open: string, close: string, x: string): string
  {
    open + x + close
  }

  /** The number of characters of all items together. */
  function TotalLength(xs: seq<string>): nat
  {
    if xs == [] then 0 else |xs[0]| + TotalLength(xs[1..])
  }

  /**
   * The wrapped items concatenated in their original order, with nothing
   * between them: each item adds exactly its own text and one pair of
   * markup, and a non-empty list starts with the opening markup.
   */
  function RenderAll(open: string, close: string, xs: seq<string>): (r: string)
    ensures |r| == |xs| * (|open| + |close|) + TotalLength(xs)
    ensures xs != [] ==> open <= r
  {
    if xs == [] then "" else Wrap(open, close, xs[0]) + RenderAll(open, close, xs[1..])
  }

  /** The `<li>` list of a project's features; markup-free features read back from it in order. */
  function FeaturesHtml(features: seq<string>): (r: string)
    ensures AllPlainText(features) ==> ParseAll(ItemOpen, ItemClose, r) == Some(features)
    ensures |r| == 9 * |features| + TotalLength(features)
  {
    if AllPlainText(features) then
      ParseRender(ItemOpen, ItemClose, features);
      RenderAll(ItemOpen, ItemClose, features)
    else
      RenderAll(ItemOpen, ItemClose, features)
  }

  /** The tag list of a project's technologies; markup-free tags read back from it in order. */
  function TagsHtml(technologies: seq<string>): (r: string)
    ensures AllPlainText(technologies) ==> ParseAll(TagOpen, TagClose, r) == Some(technologies)
    ensures |r| == 25 * |technologies| + TotalLength(technologies)
  {
    if AllPlainText(technologies) then
      ParseRender(TagOpen, TagClose, technologies);
      RenderAll(TagOpen, TagClose, technologies)
    else
      RenderAll(TagOpen, TagClose, technologies)
  }

  /** Text that contains no markup, that is, no `<`. */
  predicate PlainText(x: string)
  {
    '<' !in x
  }

  predicate AllPlainText(xs: seq<string>)
  {
    forall i :: 0 <= i < |xs| ==> PlainText(xs[i])
  }

  /** The position of the first `<` in s, or |s| when there is none. */
  function IndexOfMarkup(s: string): (k: nat)
    ensures k <= |s|
    ensures PlainText(s[..k])
    ensures k < |s| ==> s[k] == '<'
  {
    if s == [] then 0
    else if s[0] == '<' then 0
    else
      var k := 1 + IndexOfMarkup(s[1..]);
      assert s[..k] == [s[0]] + s[1..][..k - 1];
      k
  }

  /**
   * Reads a rendered list back: each item is `open`, the text up to the next
   * `<`, then `close`.
   */
  function ParseAll(open: string, close: string, s: string): Option<seq<string>>
    requires |open| > 0
    decreases |s|
  {
    if s == [] then Some([])
    else if !(open <= s) then None
    else
      var rest := s[|open|..];
      var k := IndexOfMarkup(rest);
      var after := rest[k..];
      if !(close <= after) then None
      else
        match ParseAll(open, close, after[|close|..])
        case None => None
        case Some(items) => Some([rest[..k]] + items)
  }

  /** Whatever the parser accepts is the rendering of the plain-text items it returns. */
  lemma {:induction false} ParseSound(open: string, close: string, s: string)
    requires |open| > 0
    ensures ParseAll(open, close, s).Some? ==>
              AllPlainText(ParseAll(open, close, s).value) &&
              RenderAll(open, close, ParseAll(open, close, s).value) == s
    decreases |s|
  {
    if s != [] && open <= s {
      var rest := s[|open|..];
      var k := IndexOfMarkup(rest);
      var after := rest[k..];
      if close <= after {
        var tail := after[|close|..];
        ParseSound(open, close, tail);
        var p := ParseAll(open, close, tail);
        if p.Some? {
          var item := rest[..k];
          var r := [item] + p.value;
          assert ParseAll(open, close, s) == Some(r);
          PrependPlain(item, p.value);
          RenderCons(open, close, item, p.value);
          SplitRendered(s, open, rest, k, close);
        }
      }
    }
  }

  lemma PrependPlain(x: string, xs: seq<string>)
    requires PlainText(x) && AllPlainText(xs)
    ensures AllPlainText([x] + xs)
  {
    forall i | 0 <= i < |[x] + xs| ensures PlainText(([x] + xs)[i]) {
      if i > 0 { assert ([x] + xs)[i] == xs[i - 1]; }
    }
  }

  lemma RenderCons(open: string, close: string, x: string, xs: seq<string>)
    ensures RenderAll(open, close, [x] + xs) == open + x + close + RenderAll(open, close, xs)
  {
    assert ([x] + xs)[0] == x && ([x] + xs)[1..] == xs;
  }

  lemma SplitRendered(s: string, open: string, rest: string, k: nat, close: string)
    requires open <= s && rest == s[|open|..] && k <= |rest| && close <= rest[k..]
    ensures s == open + rest[..k] + close + rest[k..][|close|..]
  {
    var after := rest[k..];
    var tail := after[|close|..];
    assert open == s[..|open|];
    assert s == open + rest;
    assert close == after[..|close|];
    assert after == close + tail;
    assert rest == rest[..k] + after;
    assert open + rest == open + rest[..k] + close + tail;
  }

  /** The first `<` after plain text x is the first character of what follows. */
  lemma {:induction false} IndexOfMarkupAfterPlain(x: string, t: string)
    requires PlainText(x) && |t| > 0 && t[0] == '<'
    ensures IndexOfMarkup(x + t) == |x|
  {
    if x != [] {
      assert (x + t)[0] == x[0];
      assert (x + t)[1..] == x[1..] + t;
      IndexOfMarkupAfterPlain(x[1..], t);
    }
  }

  /**
   * Rendering then parsing gives back the items, in order, whenever the
   * items contain no markup and the closing markup starts with `<`.
   */
  lemma {:induction false} ParseRender(open: string, close: string, xs: seq<string>)
    requires |open| > 0 && |close| > 0 && close[0] == '<'
    requires AllPlainText(xs)
    ensures ParseAll(open, close, RenderAll(open, close, xs)) == Some(xs)
  {
    if xs != [] {
      var s := RenderAll(open, close, xs);
      var tail := RenderAll(open, close, xs[1..]);
      assert s == open + (xs[0] + close + tail);
      var rest := s[|open|..];
      assert rest == xs[0] + (close + tail);
      IndexOfMarkupAfterPlain(xs[0], close + tail);
      assert rest[..|xs[0]|] == xs[0];
      assert rest[|xs[0]|..] == close + tail;
      assert (close + tail)[|close|..] == tail;
      ParseRender(open, close, xs[1..]);
      assert [xs[0]] + xs[1..] == xs;
    }
  }

  /**
   * The parser characterised exactly: it returns xs for s precisely when s is
   * the rendering of xs and the items of xs contain no markup.
   */
  lemma ParseExact(open: string, close: string, s: string, xs: seq<string>)
    requires |open| > 0 && |close| > 0 && close[0] == '<'
    ensures ParseAll(open, close, s) == Some(xs) <==> AllPlainText(xs) && RenderAll(open, close, xs) == s
  {
    ParseSound(open, close, s);
    if AllPlainText(xs) && RenderAll(open, close, xs) == s {
      ParseRender(open, close, xs);
    }
  }

  /** Rendering distributes over concatenation: the output keeps the input order. */
  lemma {:induction false} RenderAppend(open: string, close: string, xs: seq<string>, ys: seq<string>)
    ensures RenderAll(open, close, xs + ys) == RenderAll(open, close, xs) + RenderAll(open, close, ys)
  {
    if xs != [] {
      assert (xs + ys)[0] == xs[0];
      assert (xs + ys)[1..] == xs[1..] + ys;
      RenderAppend(open, close, xs[1..], ys);
    } else {
      assert xs + ys == ys;
    }
  }

  /** The rendering of a list is the rendering of its first n items followed by the item at n and the rest. */
  lemma RenderSplitAt(open: string, close: string, xs: seq<string>, n: nat)
    requires n < |xs|
    ensures RenderAll(open, close, xs)
         == RenderAll(open, close, xs[..n]) + Wrap(open, close, xs[n]) + RenderAll(open, close, xs[n + 1..])
  {
    assert xs == xs[..n] + xs[n..];
    RenderAppend(open, close, xs[..n], xs[n..]);
    assert xs[n..][0] == xs[n] && xs[n..][1..] == xs[n + 1..];
  }
}
