/**
 * The document export and the key commands of the advanced text editor
 * (components/advanced_text_editor/Editor.tsx).
 *
 * A document is the Slate value: a list of elements (paragraph, heading or
 * code), each holding a list of formatted text leaves. `exportText` renders
 * it as the string handed to the editor's change callback; `onKeyDown`
 * decides what a key press does to it.
 */
module TextEditor {
  import opened Wrappers
  import opened Seqs
  import EscapeHtml

  // ---------------------------------------------------------------------
  // Placeholder
  // ---------------------------------------------------------------------

  /** The `placeholder` prop: a plain string, or a message descriptor. */
  datatype Placeholder =
    | Message(text: string)
    | Descriptor(id: string, defaultMessage: string)

  /**
   * getPlaceholderValue: nothing (or the falsy empty string) gives '', a
   * string gives itself and a descriptor gives its default message.
   */
  function PlaceholderValue(placeholder: Option<Placeholder>): (r: string)
    ensures placeholder.None? ==> r == ""
    ensures placeholder.Some? && placeholder.value.Message? ==> r == placeholder.value.text
    ensures placeholder.Some? && placeholder.value.Descriptor? ==> r == placeholder.value.defaultMessage
  {
    match placeholder
    case None => ""
    case Some(Message(s)) => if s == "" then "" else s
    case Some(Descriptor(_, m)) => m
  }

  // ---------------------------------------------------------------------
  // Document
  // ---------------------------------------------------------------------

  /** A text leaf: its text and whether it is bold. */
  datatype FormattedText = FormattedText(text: string, bold: bool)

  datatype ElementType = Paragraph | Heading | Code

  datatype Language = JavaScript | Html | Css

  /**
   * A Slate element. Slate keeps an element's properties in one record, so
   * `language` and `level` are optional on every kind: setting the type of a
   * heading keeps its level, and a code block turned back into a paragraph
   * has its language removed.
   */
  datatype Element = Element(kind: ElementType, language: Option<Language>, level: Option<int>, children: seq<FormattedText>)

  /** intitialValue: one paragraph holding one empty leaf. */
  function InitialValue(): (doc: seq<Element>)
    ensures |doc| == 1 && doc[0].kind == Paragraph && doc[0].children == [FormattedText("", false)]
  {
    [Element(Paragraph, None, None, [FormattedText("", false)])]
  }

  // ---------------------------------------------------------------------
  // Export
  // ---------------------------------------------------------------------

  /** Array.prototype.join: the pieces with `sep` between neighbours. */
  function Join(pieces: seq<string>, sep: string): string
  {
    if pieces == [] then ""
    else if |pieces| == 1 then pieces[0]
    else pieces[0] + sep + Join(pieces[1..], sep)
  }

  const BoldMark: string := "**"
  const Fence: string := "```"

  /** serialize: the escaped text, wrapped in `**` when the leaf is bold. */
  function Serialize(node: FormattedText): (r: string)
    ensures node.bold ==> r == BoldMark + EscapeHtml.Escape(node.text) + BoldMark
    ensures !node.bold ==> r == EscapeHtml.Escape(node.text)
  {
    var s := EscapeHtml.Escape(node.text);
    if node.bold then BoldMark + s + BoldMark else s
  }

  /** `children.map(serialize).join('')`. */
  function SerializeChildren(children: seq<FormattedText>): string
  {
    Join(seq(|children|, i requires 0 <= i < |children| => Serialize(children[i])), "")
  }

  /** What one element adds to the export: code is fenced, paragraphs are bare, headings add nothing. */
  function Piece(element: Element): Option<string>
  {
    match element.kind
    case Code => Some(Fence + "\n" + SerializeChildren(element.children) + "\n" + Fence)
    case Paragraph => Some(SerializeChildren(element.children))
    case Heading => None
  }

  /** The pieces of a document, in the order of its elements. */
  function Pieces(doc: seq<Element>): seq<string>
  {
    if doc == [] then []
    else
      var last := Piece(doc[|doc| - 1]);
      Pieces(doc[..|doc| - 1]) + (if last.Some? then [last.value] else [])
  }

  /**
   * exportText: the pieces of the elements collected in order, then joined
   * with a newline.
   */
  method ExportText(node: seq<Element>) returns (r: string)
    ensures r == Join(Pieces(node), "\n")
  {
    var exportedText: seq<string> := [];
    for i := 0 to |node|
      invariant exportedText == Pieces(node[..i])
    {
      var element := node[i];
      var children := SerializeChildren(element.children);
      if element.kind == Code {
        exportedText := exportedText + [Fence + "\n" + children + "\n" + Fence];
      }
      if element.kind == Paragraph {
        exportedText := exportedText + [children];
      }
      assert node[..i + 1][..i] == node[..i];
    }
    assert node[..|node|] == node;
    r := Join(exportedText, "\n");
  }

  // ---------------------------------------------------------------------
  // Key commands
  // ---------------------------------------------------------------------

  datatype KeyEvent = KeyEvent(key: string, ctrlKey: bool)

  /** What onKeyDown does for a key press. */
  datatype Command = NoCommand | DeleteBackward | DeleteForward | ToggleCodeBlock | SetBold

  /**
   * The key handled by onKeyDown: Backspace and Delete delete a character,
   * Ctrl+` toggles code blocks and Ctrl+b sets bold; anything else, and a
   * missing event, does nothing.
   */
  function KeyCommand(event: Option<KeyEvent>): (c: Command)
    ensures c == DeleteBackward <==> event.Some? && event.value.key == "Backspace"
    ensures c == DeleteForward <==> event.Some? && event.value.key == "Delete"
    ensures c == ToggleCodeBlock <==> event.Some? && event.value.key == "`" && event.value.ctrlKey
    ensures c == SetBold <==> event.Some? && event.value.key == "b" && event.value.ctrlKey
  {
    match event
    case None => NoCommand
    case Some(e) =>
      if e.key == "Backspace" then DeleteBackward
      else if e.key == "Delete" then DeleteForward
      else if e.key == "`" && e.ctrlKey then ToggleCodeBlock
      else if e.key == "b" && e.ctrlKey then SetBold
      else NoCommand
  }

  /** Whether some element among `doc[first..last]` (inclusive) is a code block. */
  predicate AnyCode(doc: seq<Element>, first: nat, last: nat)
    requires first <= last < |doc|
  {
    exists i :: first <= i <= last && doc[i].kind == Code
  }

  /**
   * The Ctrl+` command on the elements `first..last` the selection touches:
   * if any of them is code, all become paragraphs without a language;
   * otherwise all become JavaScript code blocks. Leaves, levels and the other
   * elements are untouched.
   */
  function ToggleCode(doc: seq<Element>, first: nat, last: nat): (r: seq<Element>)
    requires first <= last < |doc|
    ensures |r| == |doc|
    ensures forall i :: 0 <= i < |doc| && !(first <= i <= last) ==> r[i] == doc[i]
    ensures forall i :: first <= i <= last ==>
      r[i].children == doc[i].children && r[i].level == doc[i].level &&
      (AnyCode(doc, first, last) ==> r[i].kind == Paragraph && r[i].language == None) &&
      (!AnyCode(doc, first, last) ==> r[i].kind == Code && r[i].language == Some(JavaScript))
  {
    var toParagraph := AnyCode(doc, first, last);
    seq(|doc|, i requires 0 <= i < |doc| =>
      if first <= i <= last then
        (if toParagraph then doc[i].(kind := Paragraph, language := None)
         else doc[i].(kind := Code, language := Some(JavaScript)))
      else doc[i])
  }

  /** Whether leaf `leaf` of element `block` lies between the leaves of two points, in document order. */
  predicate LeafBetween(block: nat, leaf: nat, start: LeafPoint, end: LeafPoint)
  {
    (start.block < block || (start.block == block && start.leaf <= leaf)) &&
    (block < end.block || (block == end.block && leaf <= end.leaf))
  }

  /**
   * The Ctrl+b command: every leaf from the start point's leaf to the end
   * point's leaf gets `bold: true`; nothing else changes.
   */
  function Bolden(doc: seq<Element>, start: LeafPoint, end: LeafPoint): (r: seq<Element>)
    ensures |r| == |doc|
    ensures forall b :: 0 <= b < |doc| ==>
      r[b].kind == doc[b].kind && r[b].language == doc[b].language && r[b].level == doc[b].level &&
      |r[b].children| == |doc[b].children|
    ensures forall b, l :: 0 <= b < |doc| && 0 <= l < |doc[b].children| ==>
      r[b].children[l].text == doc[b].children[l].text &&
      r[b].children[l].bold == (doc[b].children[l].bold || LeafBetween(b, l, start, end))
  {
    seq(|doc|, b requires 0 <= b < |doc| =>
      var children := doc[b].children;
      doc[b].(children := seq(|children|, l requires 0 <= l < |children| =>
        if LeafBetween(b, l, start, end) then children[l].(bold := true) else children[l])))
  }

  // ---------------------------------------------------------------------
  // Lemmas: export
  // ---------------------------------------------------------------------

  /** The concatenated text of some leaves. */
  function Texts(children: seq<FormattedText>): string
  {
    if children == [] then "" else children[0].text + Texts(children[1..])
  }

  /** A serialized leaf gives its text back: unescape it, after removing the bold marks when it is bold. */
  lemma SerializeRoundTrip(node: FormattedText)
    ensures var r := Serialize(node);
      if node.bold then
        |r| >= 4 && r[..2] == BoldMark && r[|r| - 2..] == BoldMark && EscapeHtml.Unescape(r[2..|r| - 2]) == node.text
      else EscapeHtml.Unescape(r) == node.text
  {
    EscapeHtml.UnescapeEscape(node.text);
    var e := EscapeHtml.Escape(node.text);
    if node.bold {
      var r := BoldMark + e + BoldMark;
      assert r[2..|r| - 2] == e;
    }
  }

  /** Joining two non-empty lists puts one separator between their joins. */
  lemma {:induction false} JoinAppend(a: seq<string>, b: seq<string>, sep: string)
    requires a != [] && b != []
    ensures Join(a + b, sep) == Join(a, sep) + sep + Join(b, sep)
    decreases |a|
  {
    assert (a + b)[0] == a[0];
    assert (a + b)[1..] == a[1..] + b;
    if |a| > 1 {
      JoinAppend(a[1..], b, sep);
    }
  }

  lemma SerializeChildrenCons(children: seq<FormattedText>)
    requires children != []
    ensures SerializeChildren(children) == Serialize(children[0]) + SerializeChildren(children[1..])
  {
    var m := seq(|children|, i requires 0 <= i < |children| => Serialize(children[i]));
    var rest := children[1..];
    assert m[1..] == seq(|rest|, i requires 0 <= i < |rest| => Serialize(rest[i]));
  }

  /** Leaves are serialized side by side, with no separator between them. */
  lemma {:induction false} SerializeChildrenAppend(a: seq<FormattedText>, b: seq<FormattedText>)
    ensures SerializeChildren(a + b) == SerializeChildren(a) + SerializeChildren(b)
    decreases |a|
  {
    if a == [] {
      assert a + b == b;
    } else {
      assert (a + b)[0] == a[0] && (a + b)[1..] == a[1..] + b;
      SerializeChildrenCons(a + b);
      SerializeChildrenCons(a);
      SerializeChildrenAppend(a[1..], b);
      AppendAssoc(Serialize(a[0]), SerializeChildren(a[1..]), SerializeChildren(b));
    }
  }

  /**
   * Leaves without bold serialize to the escape of their joined text: where
   * one leaf ends and the next begins leaves no trace.
   */
  lemma {:induction false} PlainChildrenSerializeToEscapedText(children: seq<FormattedText>)
    requires forall i :: 0 <= i < |children| ==> !children[i].bold
    ensures SerializeChildren(children) == EscapeHtml.Escape(Texts(children))
    decreases |children|
  {
    if children != [] {
      SerializeChildrenCons(children);
      PlainChildrenSerializeToEscapedText(children[1..]);
      EscapeHtml.EscapeAppend(children[0].text, Texts(children[1..]));
    }
  }

  /** A code block without bold leaves exports as its escaped text between two fence lines. */
  lemma CodeBlockPiece(element: Element)
    requires element.kind == Code
    requires forall i :: 0 <= i < |element.children| ==> !element.children[i].bold
    ensures Piece(element) == Some(Fence + "\n" + EscapeHtml.Escape(Texts(element.children)) + "\n" + Fence)
  {
    PlainChildrenSerializeToEscapedText(element.children);
  }

  /** The pieces of two documents one after the other are the pieces of each, in order. */
  lemma {:induction false} PiecesAppend(a: seq<Element>, b: seq<Element>)
    ensures Pieces(a + b) == Pieces(a) + Pieces(b)
    decreases |b|
  {
    if b == [] {
      assert a + b == a;
    } else {
      var ab := a + b;
      var init := b[..|b| - 1];
      var last := Piece(b[|b| - 1]);
      var tail := if last.Some? then [last.value] else [];
      assert ab[..|ab| - 1] == a + init && ab[|ab| - 1] == b[|b| - 1];
      assert Pieces(ab) == Pieces(a + init) + tail;
      assert Pieces(b) == Pieces(init) + tail;
      PiecesAppend(a, init);
      AppendAssoc(Pieces(a), Pieces(init), tail);
    }
  }

  /** A heading adds nothing to the export, wherever it stands. */
  lemma HeadingExportsNothing(a: seq<Element>, heading: Element, b: seq<Element>)
    requires heading.kind == Heading
    ensures Pieces(a + [heading] + b) == Pieces(a + b)
  {
    assert [heading][..0] == [];
    assert Pieces([heading]) == [];
    PiecesAppend(a, [heading]);
    assert Pieces(a + [heading]) == Pieces(a);
    PiecesAppend(a + [heading], b);
    PiecesAppend(a, b);
  }

  /**
   * Exporting two documents that each export something, one after the
   * other, gives their exports separated by a single newline.
   */
  lemma ExportAppend(a: seq<Element>, b: seq<Element>)
    requires Pieces(a) != [] && Pieces(b) != []
    ensures Join(Pieces(a + b), "\n") == Join(Pieces(a), "\n") + "\n" + Join(Pieces(b), "\n")
  {
    PiecesAppend(a, b);
    JoinAppend(Pieces(a), Pieces(b), "\n");
  }

  /** An empty document, and the initial value, export to the empty string. */
  lemma EmptyExports()
    ensures Join(Pieces([]), "\n") == ""
    ensures Join(Pieces(InitialValue()), "\n") == ""
  {
    var init := InitialValue();
    assert init[..0] == [];
    PlainChildrenSerializeToEscapedText(init[0].children);
    assert init[0].children[1..] == [];
  }

  // ---------------------------------------------------------------------
  // Lemmas: key commands
  // ---------------------------------------------------------------------

  /** Ctrl+` flips whether the selected elements hold a code block. */
  lemma ToggleCodeFlips(doc: seq<Element>, first: nat, last: nat)
    requires first <= last < |doc|
    ensures AnyCode(ToggleCode(doc, first, last), first, last) == !AnyCode(doc, first, last)
  {
    var r := ToggleCode(doc, first, last);
    if !AnyCode(doc, first, last) {
      assert r[first].kind == Code;
    }
  }

  /**
   * Pressing Ctrl+` twice on plain paragraphs gives back the document:
   * they become JavaScript code blocks and then paragraphs again.
   */
  lemma ToggleCodeTwice(doc: seq<Element>, first: nat, last: nat)
    requires first <= last < |doc|
    requires forall i :: first <= i <= last ==> doc[i].kind == Paragraph && doc[i].language == None
    ensures ToggleCode(ToggleCode(doc, first, last), first, last) == doc
  {
    ToggleCodeFlips(doc, first, last);
    var r := ToggleCode(ToggleCode(doc, first, last), first, last);
    assert forall i :: 0 <= i < |doc| ==> r[i] == doc[i];
  }

  /** Ctrl+b is idempotent: it only ever sets bold. */
  lemma BoldenIdempotent(doc: seq<Element>, start: LeafPoint, end: LeafPoint)
    ensures Bolden(Bolden(doc, start, end), start, end) == Bolden(doc, start, end)
  {
    var once := Bolden(doc, start, end);
    var twice := Bolden(once, start, end);
    forall b | 0 <= b < |doc|
      ensures twice[b] == once[b]
    {
      assert twice[b].children == once[b].children;
    }
  }

  /** Typing "hi" in a paragraph and pressing Ctrl+b over it exports "**hi**". */
  lemma BoldParagraphExport()
    ensures var doc := [Element(Paragraph, None, None, [FormattedText("hi", false)])];
      Join(Pieces(Bolden(doc, LeafPoint(0, 0, 0), LeafPoint(0, 0, 2))), "\n") == "**hi**"
  {
    var doc := [Element(Paragraph, None, None, [FormattedText("hi", false)])];
    var bold := Bolden(doc, LeafPoint(0, 0, 0), LeafPoint(0, 0, 2));
    var leaf := FormattedText("hi", true);
    assert |bold| == 1 && |bold[0].children| == 1 && bold[0].children[0] == leaf;
    assert bold[0].children == [leaf];
    assert EscapeHtml.Escape("hi"[1..]) == "i";
    assert Serialize(leaf) == "**hi**";
    SerializeChildrenCons(bold[0].children);
    assert bold[0].children[1..] == [];
    assert Piece(bold[0]) == Some("**hi**");
    assert bold[..0] == [];
  }

  /**
   * Turning a paragraph with a bold leaf into code keeps the leaf bold, so
   * the bold marks are exported inside the fence.
   */
  lemma ToggledCodeKeepsBold()
    ensures var doc := [Element(Paragraph, None, None, [FormattedText("x", true)])];
      Join(Pieces(ToggleCode(doc, 0, 0)), "\n") == "```\n**x**\n```"
  {
    var doc := [Element(Paragraph, None, None, [FormattedText("x", true)])];
    var code := ToggleCode(doc, 0, 0);
    assert !AnyCode(doc, 0, 0);
    assert code == [Element(Code, Some(JavaScript), None, [FormattedText("x", true)])];
    assert EscapeHtml.Escape("x") == "x";
    assert code[..0] == [];
  }

  // ---------------------------------------------------------------------
  // The editor
  // ---------------------------------------------------------------------

  /** A point in the document: element index, leaf index and offset in the leaf. */
  datatype LeafPoint = LeafPoint(block: nat, leaf: nat, offset: nat)

  /** A Slate selection: where it was started and where it ends. */
  datatype Selection = Selection(anchor: LeafPoint, focus: LeafPoint)

  predicate Before(p: LeafPoint, q: LeafPoint)
  {
    p.block < q.block ||
    (p.block == q.block && (p.leaf < q.leaf || (p.leaf == q.leaf && p.offset <= q.offset)))
  }

  /** Range.edges: the selection's points in document order. */
  function Start(s: Selection): LeafPoint { if Before(s.anchor, s.focus) then s.anchor else s.focus }
  function End(s: Selection): LeafPoint { if Before(s.anchor, s.focus) then s.focus else s.anchor }

  predicate PointIn(doc: seq<Element>, p: LeafPoint)
  {
    p.block < |doc| && p.leaf < |doc[p.block].children| && p.offset <= |doc[p.block].children[p.leaf].text|
  }

  /** The Slate editor: the document and the selection. */
  class EditorState {
    var children: seq<Element>
    var selection: Option<Selection>

    /** The selection, when there is one, points into the document. */
    ghost predicate Valid()
      reads this
    {
      selection.Some? ==> PointIn(children, selection.value.anchor) && PointIn(children, selection.value.focus)
    }

    /** An editor showing the initial value with no selection. */
    constructor ()
      ensures Valid() && children == InitialValue() && selection == None
    {
      children := InitialValue();
      selection := None;
    }

    /**
     * onKeyDown: decide the command for `event` and apply the two the
     * editor defines itself. `prevented` tells whether the browser's default
     * handling was cancelled. Deleting a character is Slate's own operation
     * and is only reported.
     */
    method OnKeyDown(event: Option<KeyEvent>) returns (command: Command, prevented: bool)
      requires Valid()
      modifies this
      ensures Valid()
      ensures command == KeyCommand(event)
      ensures prevented <==> command == ToggleCodeBlock || command == SetBold
      ensures command !in {DeleteBackward, DeleteForward} ==> selection == old(selection)
      ensures command == NoCommand ==> children == old(children)
      ensures command in {ToggleCodeBlock, SetBold} && selection.None? ==> children == old(children)
      ensures command == ToggleCodeBlock && selection.Some? ==>
        children == ToggleCode(old(children), Start(selection.value).block, End(selection.value).block)
      ensures command == SetBold && selection.Some? ==>
        children == Bolden(old(children), Start(selection.value), End(selection.value))
    {
      command := KeyCommand(event);
      prevented := false;
      if command == ToggleCodeBlock {
        prevented := true;
        if selection.Some? {
          var first, last := Start(selection.value).block, End(selection.value).block;
          children := ToggleCode(children, first, last);
        }
      } else if command == SetBold {
        prevented := true;
        if selection.Some? {
          children := Bolden(children, Start(selection.value), End(selection.value));
        }
      }
    }
  }
}
