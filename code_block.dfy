/**
 * Syntax decoration of code text (components/advanced_text_editor/code_block.jsx).
 *
 * Prism turns the text of a Slate text node into a token stream; the
 * decorator walks that stream depth-first and appends one style-tagged range
 * per string leaf to a shared `ranges` list, threading a running character
 * offset `start` through the walk.
 *
 * The specification of the walk is split in two: `Leaves` lists the string
 * leaves of the token tree in order, each with the tag it is drawn with, and
 * `Layout` places a list of leaves side by side from a starting offset.
 */
module CodeBlock {
  import opened Wrappers
  import opened Seqs

  /** A Slate path: the indices leading from the editor root to a node. */
  type Path = seq<nat>

  /**
   * A Prism token: a raw string, or a typed token. A typed token's content is
   * either a plain string or a nested token stream.
   */
  datatype Token =
    | Str(text: string)
    | Typed(kind: string, content: Content)

  datatype Content =
    | Chars(text: string)
    | Nested(tokens: seq<Token>)

  /** A Slate point: a path and a character offset inside that node. */
  datatype Point = Point(path: Path, offset: nat)

  /** A decoration range `{prism_token, anchor, focus}`. */
  datatype Range = Range(prismToken: string, anchor: Point, focus: Point)

  /** A string the walk visits, with the tag its range gets. */
  datatype Leaf = Leaf(tag: string, text: string)

  /** The tag of a string that no typed token encloses. */
  const DefaultTag: string := "text"

  /** `token_type = 'text'`: the default applies when no tag is passed. */
  function TagOf(parentTag: Option<string>): string
  {
    match parentTag
    case None => DefaultTag
    case Some(t) => t
  }

  // ---------------------------------------------------------------------
  // Specification: the leaves of a token tree and their layout
  // ---------------------------------------------------------------------

  /**
   * The string leaves of `t` in depth-first, left-to-right order. A string
   * is tagged with the type of its nearest enclosing typed token, or with
   * `parentTag`'s default when there is none. Iterating over a string
   * content visits its characters one by one, so each becomes a leaf.
   */
  function Leaves(t: Token, parentTag: Option<string>): seq<Leaf>
    decreases t, 1
  {
    match t
    case Str(s) => [Leaf(TagOf(parentTag), s)]
    case Typed(k, Chars(s)) => CharLeaves(k, s)
    case Typed(k, Nested(ts)) => LeavesSeq(ts, Some(k))
  }

  function LeavesSeq(ts: seq<Token>, parentTag: Option<string>): seq<Leaf>
    decreases ts, 0
  {
    if ts == [] then []
    else LeavesSeq(ts[..|ts| - 1], parentTag) + Leaves(ts[|ts| - 1], parentTag)
  }

  /** One leaf per character of `s`, each tagged `kind`. */
  function CharLeaves(kind: string, s: string): seq<Leaf>
  {
    if s == [] then []
    else CharLeaves(kind, s[..|s| - 1]) + [Leaf(kind, [s[|s| - 1]])]
  }

  /** The concatenated text of a list of leaves. */
  function LeafText(ls: seq<Leaf>): string
  {
    if ls == [] then []
    else LeafText(ls[..|ls| - 1]) + ls[|ls| - 1].text
  }

  /**
   * The ranges of the leaves `ls` laid out one after the other from offset
   * `start`, all on node `path`.
   */
  function Layout(ls: seq<Leaf>, path: Path, start: nat): seq<Range>
  {
    if ls == [] then []
    else
      var init := ls[..|ls| - 1];
      var at := start + |LeafText(init)|;
      var last := ls[|ls| - 1];
      Layout(init, path, start) + [Range(last.tag, Point(path, at), Point(path, at + |last.text|))]
  }

  /** The text a token stands for (independent of the walk). */
  function Text(t: Token): string
    decreases t, 1
  {
    match t
    case Str(s) => s
    case Typed(_, Chars(s)) => s
    case Typed(_, Nested(ts)) => TextSeq(ts)
  }

  function TextSeq(ts: seq<Token>): string
    decreases ts, 0
  {
    if ts == [] then [] else TextSeq(ts[..|ts| - 1]) + Text(ts[|ts| - 1])
  }

  /** The number of strings the walk visits in `t`; typed tokens count zero themselves. */
  function StringCount(t: Token): nat
    decreases t, 1
  {
    match t
    case Str(_) => 1
    case Typed(_, Chars(s)) => |s|
    case Typed(_, Nested(ts)) => StringCountSeq(ts)
  }

  function StringCountSeq(ts: seq<Token>): nat
    decreases ts, 0
  {
    if ts == [] then 0 else StringCountSeq(ts[..|ts| - 1]) + StringCount(ts[|ts| - 1])
  }

  /**
   * `rs` tile the offsets `[lo, hi)` in order: the first anchor is `lo`, each
   * anchor is the previous focus, no range is reversed and the last focus is `hi`.
   */
  predicate Contiguous(rs: seq<Range>, lo: nat, hi: nat)
  {
    (rs == [] ==> lo == hi) &&
    (rs != [] ==> rs[0].anchor.offset == lo && rs[|rs| - 1].focus.offset == hi) &&
    (forall i :: 0 <= i < |rs| ==> rs[i].anchor.offset <= rs[i].focus.offset) &&
    (forall i :: 0 < i < |rs| ==> rs[i].anchor.offset == rs[i - 1].focus.offset)
  }

  // ---------------------------------------------------------------------
  // The walk (push_string, recurseTokenize, decorateCodeFunc)
  // ---------------------------------------------------------------------

  /** The JavaScript array `ranges` that the walk appends to. */
  class RangeList {
    var items: seq<Range>

    constructor ()
      ensures items == []
    {
      items := [];
    }

    method Push(r: Range)
      modifies this
      ensures items == old(items) + [r]
    {
      items := items + [r];
    }
  }

  /**
   * push_string: append one range for `token` starting at `start` and
   * return the offset just past it.
   */
  method PushString(token: string, path: Path, start: nat, ranges: RangeList, tokenType: Option<string>)
    returns (next: nat)
    modifies ranges
    ensures ranges.items == old(ranges.items) + [Range(TagOf(tokenType), Point(path, start), Point(path, start + |token|))]
    ensures next == start + |token|
  {
    ranges.Push(Range(TagOf(tokenType), Point(path, start), Point(path, start + |token|)));
    next := start + |token|;
  }

  /**
   * recurseTokenize: append the ranges of `token`'s leaves from `start` and
   * return the offset just past them. A string goes to push_string with the
   * inherited tag; a typed token walks its content with its own type.
   */
  method RecurseTokenize(token: Token, path: Path, ranges: RangeList, start: nat, parentTag: Option<string>)
    returns (next: nat)
    modifies ranges
    decreases token, 1
    ensures ranges.items == old(ranges.items) + Layout(Leaves(token, parentTag), path, start)
    ensures next == start + |LeafText(Leaves(token, parentTag))|
  {
    match token
    case Str(s) =>
      next := PushString(s, path, start, ranges, parentTag);
      assert Leaves(token, parentTag)[..0] == [];
    case Typed(k, Chars(s)) =>
      next := RecurseChars(k, s, path, ranges, start);
    case Typed(k, Nested(ts)) =>
      next := RecurseContent(ts, path, ranges, start, Some(k));
  }

  /**
   * The `for…of` loop of recurseTokenize over a string content: each
   * character is a one-character string, pushed with the token's type.
   */
  method RecurseChars(kind: string, s: string, path: Path, ranges: RangeList, start: nat)
    returns (next: nat)
    modifies ranges
    ensures ranges.items == old(ranges.items) + Layout(CharLeaves(kind, s), path, start)
    ensures next == start + |LeafText(CharLeaves(kind, s))|
  {
    next := start;
    var i := 0;
    while i < |s|
      invariant 0 <= i <= |s|
      invariant ranges.items == old(ranges.items) + Layout(CharLeaves(kind, s[..i]), path, start)
      invariant next == start + |LeafText(CharLeaves(kind, s[..i]))|
    {
      ghost var at := next;
      assert TagOf(Some(kind)) == kind;
      next := PushString([s[i]], path, next, ranges, Some(kind));
      CharLeavesStep(kind, s, i, path, start, at);
      AppendAssoc(old(ranges.items), Layout(CharLeaves(kind, s[..i]), path, start),
        [Range(kind, Point(path, at), Point(path, at + |[s[i]]|))]);
      i := i + 1;
    }
    assert s[..i] == s;
  }

  /**
   * The `for…of` loop of recurseTokenize over a nested token stream: each
   * sub-token is walked in turn with `parentTag`, the enclosing token's type.
   */
  method RecurseContent(ts: seq<Token>, path: Path, ranges: RangeList, start: nat, parentTag: Option<string>)
    returns (next: nat)
    modifies ranges
    decreases ts, 0
    ensures ranges.items == old(ranges.items) + Layout(LeavesSeq(ts, parentTag), path, start)
    ensures next == start + |LeafText(LeavesSeq(ts, parentTag))|
  {
    next := start;
    var i := 0;
    while i < |ts|
      invariant 0 <= i <= |ts|
      invariant ranges.items == old(ranges.items) + Layout(LeavesSeq(ts[..i], parentTag), path, start)
      invariant next == start + |LeafText(LeavesSeq(ts[..i], parentTag))|
    {
      ghost var before := ranges.items;
      ghost var at := next;
      next := RecurseTokenize(ts[i], path, ranges, next, parentTag);
      LeavesSeqStep(ts, i, parentTag, path, start, at);
      AppendAssoc(old(ranges.items), Layout(LeavesSeq(ts[..i], parentTag), path, start),
        Layout(Leaves(ts[i], parentTag), path, at));
      i := i + 1;
    }
    assert ts[..i] == ts;
  }

  /** A Slate node handed to the decorator: a text node, or an element. */
  datatype Node = TextNode(text: string) | ElementNode

  /** The language the decorator highlights, before aliasing. */
  const Language: string := "html"

  /** `lang_aliases`: the names Prism knows some languages by. */
  const LanguageAliases: map<string, string> := map["html" := "markup"]

  /** The name Prism knows `language` by: its alias when it has one. */
  function ResolveLanguage(language: string): string
  {
    if language in LanguageAliases then LanguageAliases[language] else language
  }

  /**
   * decorateCodeFunc: the decoration ranges of `node` at `path`. `registry`
   * is the set of language names Prism's component list holds, and
   * `tokenize(text, language)` stands for Prism's tokenizer.
   */
  method DecorateCode(node: Node, path: Path, registry: set<string>, tokenize: (string, string) -> seq<Token>)
    returns (ranges: seq<Range>)
    ensures !node.TextNode? ==> ranges == []
    ensures node.TextNode? && "markup" !in registry ==> ranges == []
    ensures node.TextNode? && "markup" in registry ==>
      ranges == Layout(LeavesSeq(tokenize(node.text, "markup"), None), path, 0)
  {
    var list := new RangeList();
    if !node.TextNode? {
      return list.items;
    }
    var language := ResolveLanguage(Language);
    if language !in registry {
      return list.items;
    }
    var tokens := tokenize(node.text, language);
    var start := 0;
    var i := 0;
    while i < |tokens|
      invariant 0 <= i <= |tokens|
      invariant list.items == Layout(LeavesSeq(tokens[..i], None), path, 0)
      invariant start == |LeafText(LeavesSeq(tokens[..i], None))|
    {
      ghost var at := start;
      start := RecurseTokenize(tokens[i], path, list, start, None);
      LeavesSeqStep(tokens, i, None, path, 0, at);
      i := i + 1;
    }
    assert tokens[..i] == tokens;
    ranges := list.items;
  }

  // ---------------------------------------------------------------------
  // Lemmas: layout
  // ---------------------------------------------------------------------

  lemma {:induction false} LeafTextAppend(a: seq<Leaf>, b: seq<Leaf>)
    ensures LeafText(a + b) == LeafText(a) + LeafText(b)
    decreases |b|
  {
    if b == [] {
      assert a + b == a;
    } else {
      var init := b[..|b| - 1];
      var ab := a + b;
      assert ab[..|ab| - 1] == a + init && ab[|ab| - 1] == b[|b| - 1];
      LeafTextAppend(a, init);
      AppendAssoc(LeafText(a), LeafText(init), b[|b| - 1].text);
    }
  }

  /** Laying out two lists one after the other is laying out their concatenation. */
  lemma {:induction false} LayoutAppend(a: seq<Leaf>, b: seq<Leaf>, path: Path, start: nat)
    ensures Layout(a + b, path, start) == Layout(a, path, start) + Layout(b, path, start + |LeafText(a)|)
    decreases |b|
  {
    if b == [] {
      assert a + b == a;
    } else {
      var init := b[..|b| - 1];
      var last := b[|b| - 1];
      var ab := a + b;
      assert ab[..|ab| - 1] == a + init && ab[|ab| - 1] == last;
      LayoutAppend(a, init, path, start);
      LeafTextAppend(a, init);
      var at := start + |LeafText(a)| + |LeafText(init)|;
      AppendAssoc(Layout(a, path, start), Layout(init, path, start + |LeafText(a)|),
        [Range(last.tag, Point(path, at), Point(path, at + |last.text|))]);
    }
  }

  lemma {:induction false} LayoutLength(ls: seq<Leaf>, path: Path, start: nat)
    ensures |Layout(ls, path, start)| == |ls|
    decreases |ls|
  {
    if ls != [] {
      LayoutLength(ls[..|ls| - 1], path, start);
    }
  }

  /**
   * Range `i` of a layout carries leaf `i`'s tag, lies on `path`, starts
   * where the text of the leaves before it ends and spans leaf `i`'s text.
   */
  lemma {:induction false} LayoutAt(ls: seq<Leaf>, path: Path, start: nat, i: nat)
    requires i < |ls|
    ensures |Layout(ls, path, start)| == |ls|
    ensures var r := Layout(ls, path, start)[i];
      r.prismToken == ls[i].tag && r.anchor.path == path && r.focus.path == path &&
      r.anchor.offset == start + |LeafText(ls[..i])| &&
      r.focus.offset == r.anchor.offset + |ls[i].text|
    decreases |ls|
  {
    var init := ls[..|ls| - 1];
    LayoutLength(init, path, start);
    if i < |init| {
      LayoutAt(init, path, start, i);
      assert ls[..i] == init[..i];
    }
  }

  lemma LayoutShape(ls: seq<Leaf>, path: Path, start: nat)
    ensures |Layout(ls, path, start)| == |ls|
    ensures forall i :: 0 <= i < |ls| ==>
      var r := Layout(ls, path, start)[i];
      r.prismToken == ls[i].tag && r.anchor.path == path && r.focus.path == path &&
      r.anchor.offset == start + |LeafText(ls[..i])| &&
      r.focus.offset == r.anchor.offset + |ls[i].text|
  {
    LayoutLength(ls, path, start);
    forall i | 0 <= i < |ls|
      ensures var r := Layout(ls, path, start)[i];
        r.prismToken == ls[i].tag && r.anchor.path == path && r.focus.path == path &&
        r.anchor.offset == start + |LeafText(ls[..i])| &&
        r.focus.offset == r.anchor.offset + |ls[i].text|
    {
      LayoutAt(ls, path, start, i);
    }
  }

  /** Walking one more character of a string content appends one one-character range. */
  lemma CharLeavesStep(kind: string, s: string, i: nat, path: Path, start: nat, at: nat)
    requires i < |s|
    requires at == start + |LeafText(CharLeaves(kind, s[..i]))|
    ensures Layout(CharLeaves(kind, s[..i + 1]), path, start)
        == Layout(CharLeaves(kind, s[..i]), path, start) + [Range(kind, Point(path, at), Point(path, at + |[s[i]]|))]
    ensures |LeafText(CharLeaves(kind, s[..i + 1]))| == |LeafText(CharLeaves(kind, s[..i]))| + |[s[i]]|
  {
    var upto := s[..i + 1];
    assert upto[..|upto| - 1] == s[..i] && upto[|upto| - 1] == s[i];
    var done := CharLeaves(kind, s[..i]);
    var leaf := Leaf(kind, [s[i]]);
    var next := CharLeaves(kind, upto);
    assert next == done + [leaf];
    assert next[..|next| - 1] == done && next[|next| - 1] == leaf;
    assert LeafText(next) == LeafText(done) + leaf.text;
  }

  lemma LeavesSeqSnoc(ts: seq<Token>, i: nat, parentTag: Option<string>)
    requires i < |ts|
    ensures LeavesSeq(ts[..i + 1], parentTag) == LeavesSeq(ts[..i], parentTag) + Leaves(ts[i], parentTag)
  {
    var upto := ts[..i + 1];
    assert upto[..|upto| - 1] == ts[..i] && upto[|upto| - 1] == ts[i];
  }

  /** Walking one more token of a stream appends that token's layout. */
  lemma LeavesSeqStep(ts: seq<Token>, i: nat, parentTag: Option<string>, path: Path, start: nat, at: nat)
    requires i < |ts|
    requires at == start + |LeafText(LeavesSeq(ts[..i], parentTag))|
    ensures Layout(LeavesSeq(ts[..i + 1], parentTag), path, start)
        == Layout(LeavesSeq(ts[..i], parentTag), path, start) + Layout(Leaves(ts[i], parentTag), path, at)
    ensures LeafText(LeavesSeq(ts[..i + 1], parentTag))
        == LeafText(LeavesSeq(ts[..i], parentTag)) + LeafText(Leaves(ts[i], parentTag))
  {
    var done := LeavesSeq(ts[..i], parentTag);
    var sub := Leaves(ts[i], parentTag);
    LeavesSeqSnoc(ts, i, parentTag);
    LayoutAppend(done, sub, path, start);
    LeafTextAppend(done, sub);
  }

  /** Range `i` of a layout starts where range `i - 1` ends. */
  lemma LayoutAdjacentAt(ls: seq<Leaf>, path: Path, start: nat, i: nat)
    requires 0 < i < |ls|
    ensures |Layout(ls, path, start)| == |ls|
    ensures Layout(ls, path, start)[i].anchor.offset == Layout(ls, path, start)[i - 1].focus.offset
  {
    LayoutAt(ls, path, start, i);
    LayoutAt(ls, path, start, i - 1);
    var pre := ls[..i];
    assert pre[..|pre| - 1] == ls[..i - 1];
    assert LeafText(pre) == LeafText(ls[..i - 1]) + ls[i - 1].text;
  }

  /** A layout tiles `[start, start + |text|)` without gap or overlap. */
  lemma {:induction false} LayoutContiguous(ls: seq<Leaf>, path: Path, start: nat)
    ensures Contiguous(Layout(ls, path, start), start, start + |LeafText(ls)|)
  {
    var rs := Layout(ls, path, start);
    LayoutLength(ls, path, start);
    if ls != [] {
      LayoutAt(ls, path, start, 0);
      assert ls[..0] == [];
      LayoutAt(ls, path, start, |ls| - 1);
    }
    forall i | 0 <= i < |rs|
      ensures rs[i].anchor.offset <= rs[i].focus.offset
    {
      LayoutAt(ls, path, start, i);
    }
    forall i | 0 < i < |rs|
      ensures rs[i].anchor.offset == rs[i - 1].focus.offset
    {
      LayoutAdjacentAt(ls, path, start, i);
    }
  }

  /** The joined text of `ls` splits around leaf `i`. */
  lemma LeafTextAround(ls: seq<Leaf>, i: nat)
    requires i < |ls|
    ensures LeafText(ls) == LeafText(ls[..i]) + ls[i].text + LeafText(ls[i + 1..])
  {
    var pre := ls[..i + 1];
    assert ls == pre + ls[i + 1..];
    LeafTextAppend(pre, ls[i + 1..]);
    assert pre[..|pre| - 1] == ls[..i] && pre[|pre| - 1] == ls[i];
  }

  /** Range `i` of a layout picks out leaf `i`'s text from the joined text. */
  lemma LayoutCoversAt(ls: seq<Leaf>, path: Path, start: nat, i: nat)
    requires i < |ls|
    ensures |Layout(ls, path, start)| == |ls|
    ensures var r := Layout(ls, path, start)[i];
      start <= r.anchor.offset <= r.focus.offset <= start + |LeafText(ls)| &&
      LeafText(ls)[r.anchor.offset - start..r.focus.offset - start] == ls[i].text
  {
    LayoutAt(ls, path, start, i);
    LeafTextAround(ls, i);
    SliceMiddle(LeafText(ls[..i]), ls[i].text, LeafText(ls[i + 1..]));
  }

  // ---------------------------------------------------------------------
  // Lemmas: leaves of a token tree
  // ---------------------------------------------------------------------

  lemma {:induction false} LeavesSeqAppend(a: seq<Token>, b: seq<Token>, parentTag: Option<string>)
    ensures LeavesSeq(a + b, parentTag) == LeavesSeq(a, parentTag) + LeavesSeq(b, parentTag)
    decreases |b|
  {
    if b == [] {
      assert a + b == a;
    } else {
      var init := b[..|b| - 1];
      assert (a + b)[..|a + b| - 1] == a + init;
      LeavesSeqAppend(a, init, parentTag);
    }
  }

  /** The leaves of a token reconstruct the text the token stands for. */
  lemma {:induction false} LeafTextIsText(t: Token, parentTag: Option<string>)
    ensures LeafText(Leaves(t, parentTag)) == Text(t)
    decreases t, 1
  {
    match t
    case Str(s) =>
      assert Leaves(t, parentTag)[..0] == [];
    case Typed(k, Chars(s)) =>
      CharLeavesText(k, s);
    case Typed(k, Nested(ts)) =>
      LeafTextIsTextSeq(ts, Some(k));
  }

  lemma {:induction false} LeafTextIsTextSeq(ts: seq<Token>, parentTag: Option<string>)
    ensures LeafText(LeavesSeq(ts, parentTag)) == TextSeq(ts)
    decreases ts, 0
  {
    if ts != [] {
      var init := ts[..|ts| - 1];
      LeafTextIsTextSeq(init, parentTag);
      LeafTextIsText(ts[|ts| - 1], parentTag);
      LeafTextAppend(LeavesSeq(init, parentTag), Leaves(ts[|ts| - 1], parentTag));
    }
  }

  /** A string content yields one leaf per character, tagged with the token's type. */
  lemma {:induction false} CharLeavesText(kind: string, s: string)
    ensures LeafText(CharLeaves(kind, s)) == s
    ensures |CharLeaves(kind, s)| == |s|
    ensures forall i :: 0 <= i < |s| ==> CharLeaves(kind, s)[i] == Leaf(kind, [s[i]])
    decreases |s|
  {
    if s != [] {
      var init := s[..|s| - 1];
      CharLeavesText(kind, init);
      var ls := CharLeaves(kind, s);
      assert ls == CharLeaves(kind, init) + [Leaf(kind, [s[|s| - 1]])];
      assert ls[..|ls| - 1] == CharLeaves(kind, init);
      assert s == init + [s[|s| - 1]];
    }
  }

  /** The walk visits exactly the strings of the tree: one leaf per string, none per typed token. */
  lemma {:induction false} LeavesCount(t: Token, parentTag: Option<string>)
    ensures |Leaves(t, parentTag)| == StringCount(t)
    decreases t, 1
  {
    match t
    case Str(_) =>
    case Typed(k, Chars(s)) =>
      CharLeavesText(k, s);
    case Typed(k, Nested(ts)) =>
      LeavesCountSeq(ts, Some(k));
  }

  lemma {:induction false} LeavesCountSeq(ts: seq<Token>, parentTag: Option<string>)
    ensures |LeavesSeq(ts, parentTag)| == StringCountSeq(ts)
    decreases ts, 0
  {
    if ts != [] {
      LeavesCountSeq(ts[..|ts| - 1], parentTag);
      LeavesCount(ts[|ts| - 1], parentTag);
    }
  }

  /**
   * A raw string at position `j` of a token stream gives the leaf right after
   * the leaves of the tokens before it, tagged with the inherited tag.
   */
  lemma StringTokenLeaf(ts: seq<Token>, j: nat, parentTag: Option<string>)
    requires j < |ts| && ts[j].Str?
    ensures |LeavesSeq(ts[..j], parentTag)| < |LeavesSeq(ts, parentTag)|
    ensures LeavesSeq(ts, parentTag)[|LeavesSeq(ts[..j], parentTag)|] == Leaf(TagOf(parentTag), ts[j].text)
  {
    assert ts == ts[..j] + [ts[j]] + ts[j + 1..];
    LeavesSeqAppend(ts[..j] + [ts[j]], ts[j + 1..], parentTag);
    LeavesSeqAppend(ts[..j], [ts[j]], parentTag);
    assert [ts[j]][..0] == [];
  }

  /** A string with no enclosing typed token is tagged 'text'. */
  lemma TopLevelStringTaggedText(tokens: seq<Token>, j: nat)
    requires j < |tokens| && tokens[j].Str?
    ensures |LeavesSeq(tokens[..j], None)| < |LeavesSeq(tokens, None)|
    ensures LeavesSeq(tokens, None)[|LeavesSeq(tokens[..j], None)|] == Leaf("text", tokens[j].text)
  {
    StringTokenLeaf(tokens, j, None);
  }

  /** A string child of a typed token is tagged with that token's type, whatever tag the token inherited. */
  lemma StringChildTaggedWithType(kind: string, children: seq<Token>, j: nat, parentTag: Option<string>)
    requires j < |children| && children[j].Str?
    ensures |LeavesSeq(children[..j], Some(kind))| < |Leaves(Typed(kind, Nested(children)), parentTag)|
    ensures Leaves(Typed(kind, Nested(children)), parentTag)[|LeavesSeq(children[..j], Some(kind))|]
      == Leaf(kind, children[j].text)
  {
    StringTokenLeaf(children, j, Some(kind));
  }

  // ---------------------------------------------------------------------
  // Lemmas: what decorateCodeFunc produces
  // ---------------------------------------------------------------------

  /**
   * The ranges of a token stream, laid out from offset 0, are one per string
   * leaf, all on `path`, and tile `[0, |text|)` where text is the stream's text.
   */
  lemma DecorationTiles(tokens: seq<Token>, path: Path)
    ensures var rs := Layout(LeavesSeq(tokens, None), path, 0);
      |rs| == StringCountSeq(tokens) &&
      Contiguous(rs, 0, |TextSeq(tokens)|) &&
      forall i :: 0 <= i < |rs| ==> rs[i].anchor.path == path && rs[i].focus.path == path
  {
    var ls := LeavesSeq(tokens, None);
    LayoutShape(ls, path, 0);
    LayoutContiguous(ls, path, 0);
    LeafTextIsTextSeq(tokens, None);
    LeavesCountSeq(tokens, None);
  }

  /**
   * When the tokens reconstruct the node's text, as Prism's tokenizer
   * promises, each range selects from that text exactly the string it was
   * made from, and the last range ends at the end of the text.
   */
  lemma DecorationCoversNodeText(tokens: seq<Token>, path: Path, text: string)
    requires TextSeq(tokens) == text
    ensures var ls := LeavesSeq(tokens, None);
      var rs := Layout(ls, path, 0);
      |rs| == |ls| &&
      (rs != [] ==> rs[|rs| - 1].focus.offset == |text|) &&
      forall i :: 0 <= i < |rs| ==>
        rs[i].anchor.offset <= rs[i].focus.offset <= |text| &&
        text[rs[i].anchor.offset..rs[i].focus.offset] == ls[i].text
  {
    var ls := LeavesSeq(tokens, None);
    LeafTextIsTextSeq(tokens, None);
    LayoutLength(ls, path, 0);
    if ls != [] {
      LayoutCoversAt(ls, path, 0, |ls| - 1);
      LeafTextAround(ls, |ls| - 1);
      assert ls[|ls|..] == [];
    }
    forall i | 0 <= i < |ls|
      ensures var r := Layout(ls, path, 0)[i];
        r.anchor.offset <= r.focus.offset <= |text| && text[r.anchor.offset..r.focus.offset] == ls[i].text
    {
      LayoutCoversAt(ls, path, 0, i);
    }
  }
}
