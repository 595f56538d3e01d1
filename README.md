# Advanced text editor: code decoration, export and key commands

A Dafny model of the two pieces of the advanced text editor that hold logic.

- **Code decoration** (`components/advanced_text_editor/code_block.jsx`). Prism's tokenizer turns the text of a Slate text node into a token stream. The decorator walks that stream depth-first. For each string it meets, it appends one range `{prism_token, anchor, focus}` to a shared list and advances a running character offset.
  - A string is tagged with the type of its nearest enclosing typed token. A string with no typed ancestor gets the default tag `'text'`.
  - A typed token emits no range of its own.
  - The decorator first requires a text node, and then that the language (`html`, aliased to Prism's `markup`) is in Prism's component registry.
- **Export and key commands** (`components/advanced_text_editor/Editor.tsx`).
  - `exportText` renders the Slate value (paragraph, heading and code elements holding formatted text leaves) as a newline-joined string. It fences code in triple backticks and drops headings.
  - `serialize` HTML-escapes a leaf and wraps it in `**` when it is bold.
  - `getPlaceholderValue` picks the placeholder text.
  - `onKeyDown` maps keys to commands. Ctrl+` toggles code blocks over the selected elements. Ctrl+b sets bold on the selected leaves.

Files:
- `code_block.dfy`: module `CodeBlock`.
- `editor.dfy`: module `TextEditor`.
- `escape_html.dfy`: module `EscapeHtml`, a model of the escape-html library that `Editor.tsx` imports.
- `wrappers.dfy`: `Option`, standing for a JavaScript value that may be `undefined`.
- `seqs.dfy`: two sequence facts the proofs use.

## Structure of the decoration proof

The walk is specified in two steps:
- `Leaves(token, parentTag)` lists the strings of a token tree in depth-first order, each with the tag it is drawn with.
- `Layout(leaves, path, start)` places those strings side by side from `start` on node `path`.

`RecurseTokenize`, `RecurseChars`, `RecurseContent` and `DecorateCode` are proved to append exactly `Layout(Leaves(...))`. The lemmas then prove the following about `Leaves` and `Layout`:
- the ranges tile the text without gap or overlap;
- each range selects its own string from the node text;
- there is one range per string;
- tags are inherited from the nearest typed ancestor.

A Prism token's `content` is either a plain string or a nested stream. `for…of` over a string content visits its characters one at a time, so each character becomes a one-character range carrying the token's type. The datatype `Content = Chars(text) | Nested(tokens)` keeps both cases.

## Behaviour modelled as the code has it

- Code-block leaves are HTML-escaped exactly like paragraph leaves (`TextEditor.CodeBlockPiece`).
- Turning elements into code does not clear bold, so `**` can appear inside a fence (`TextEditor.ToggledCodeKeepsBold`).
- Turning code back into a paragraph removes `language`. A heading's `level` survives either toggle.
- There is no Markdown parser, no merging of adjacent leaves, no check that the tokens reconstruct the text, and no rule that an element keeps at least one leaf. Only what the code does is modelled.
- The decorator always uses the language `html`, which it aliases to `markup`.

## Model

| member | source | states |
|---|---|---|
| `CodeBlock.RangeList.Push` | components/advanced_text_editor/code_block.jsx:10-14 | `ranges.push` appends one range and keeps the earlier ones |
| `CodeBlock.PushString` | components/advanced_text_editor/code_block.jsx:9-17 | Appends exactly one range with anchor `start`, focus `start + length` and tag `token_type`, defaulting to `'text'`. Returns `start + length`. Earlier entries are unchanged. |
| `CodeBlock.RecurseTokenize` | components/advanced_text_editor/code_block.jsx:20-32 | Appends the layout of the token's string leaves, tagged with their nearest typed ancestor or the inherited tag. Returns `start` plus the leaves' total length. |
| `CodeBlock.RecurseChars` | components/advanced_text_editor/code_block.jsx:25-30 | A string content appends one range per character, tagged with the token's type, and advances by its length |
| `CodeBlock.RecurseContent` | components/advanced_text_editor/code_block.jsx:25-30 | A nested content appends the sub-tokens' layouts in order, each passed the token's type. Returns the offset past all of them. |
| `CodeBlock.DecorateCode` | components/advanced_text_editor/code_block.jsx:34-59 | Gives an empty list for a non-text node, and an empty list when `markup`, the alias of `html`, is not in the registry. Otherwise gives the layout of the tokens' leaves from offset 0, untagged at top level. |
| `CodeBlock.LayoutAppend` | components/advanced_text_editor/code_block.jsx:27-30 | Walking two runs of leaves one after the other equals walking their concatenation, with the second run starting where the first ends |
| `CodeBlock.LayoutAt` | components/advanced_text_editor/code_block.jsx:9-17 | Range `i` carries leaf `i`'s tag and the given path. It starts after the text of the leaves before it and spans leaf `i`'s text. |
| `CodeBlock.LayoutShape` | components/advanced_text_editor/code_block.jsx:9-17 | The same as `LayoutAt`, for all ranges at once, with one range per leaf |
| `CodeBlock.LayoutAdjacentAt` | components/advanced_text_editor/code_block.jsx:15-16 | Range `i` starts exactly where range `i - 1` ends: the offset returned by one push is the anchor of the next |
| `CodeBlock.LayoutContiguous` | components/advanced_text_editor/code_block.jsx:54-58 | The ranges tile `[start, start + text length)`: the first anchor is `start`, each anchor is the previous focus, none is reversed, and the last focus is the end |
| `CodeBlock.LayoutCoversAt` | components/advanced_text_editor/code_block.jsx:10-16 | Range `i` lies inside the joined text and selects exactly leaf `i`'s string from it |
| `CodeBlock.LeafTextIsText` | components/advanced_text_editor/code_block.jsx:15-30 | The leaves the walk visits reconstruct the token's text, so the returned offset is `start` plus the token's text length |
| `CodeBlock.LeafTextIsTextSeq` | components/advanced_text_editor/code_block.jsx:27-30 | The same for a token stream |
| `CodeBlock.CharLeavesText` | components/advanced_text_editor/code_block.jsx:27-28 | A string content yields one leaf per character, in order, each tagged with the token's type |
| `CodeBlock.LeavesCount` | components/advanced_text_editor/code_block.jsx:25-31 | The walk makes one range per string leaf and none per typed token |
| `CodeBlock.LeavesCountSeq` | components/advanced_text_editor/code_block.jsx:54-57 | The same for a token stream |
| `CodeBlock.LeavesSeqAppend` | components/advanced_text_editor/code_block.jsx:27-29 | The leaves of two streams one after the other are the leaves of each, in order |
| `CodeBlock.StringTokenLeaf` | components/advanced_text_editor/code_block.jsx:22-23 | A raw string in a stream gives the leaf right after its left siblings' leaves, tagged with the inherited tag |
| `CodeBlock.TopLevelStringTaggedText` | components/advanced_text_editor/code_block.jsx:54-57 | A raw string with no enclosing typed token is tagged `'text'` |
| `CodeBlock.StringChildTaggedWithType` | components/advanced_text_editor/code_block.jsx:26-28 | A raw string child of a typed token is tagged with that token's type, whatever tag the token itself inherited |
| `CodeBlock.DecorationTiles` | components/advanced_text_editor/code_block.jsx:54-58 | The decoration has one range per string leaf, all on the node's path, tiling `[0, total leaf length)` |
| `CodeBlock.DecorationCoversNodeText` | components/advanced_text_editor/code_block.jsx:52-58 | When the tokens reconstruct the node text, the last focus is the text's length and each range selects its own string from the node text |
| `EscapeHtml.UnescapeEscape` | components/advanced_text_editor/Editor.tsx:94 | Escaping loses nothing: the original text can be read back |
| `EscapeHtml.EscapeAppend` | components/advanced_text_editor/Editor.tsx:94 | Escaping works character by character and distributes over concatenation |
| `EscapeHtml.EscapeHasNoSpecial` | components/advanced_text_editor/Editor.tsx:94 | The escaped text contains none of `" ' < >` |
| `TextEditor.PlaceholderValue` | components/advanced_text_editor/Editor.tsx:12-20 | An absent placeholder gives `''`. A string gives itself, including the falsy `''`. A descriptor gives its `defaultMessage`. |
| `TextEditor.InitialValue` | components/advanced_text_editor/Editor.tsx:54-61 | The initial value is one paragraph with one empty, non-bold leaf |
| `TextEditor.Serialize` | components/advanced_text_editor/Editor.tsx:92-101 | The escaped text, wrapped in `**` exactly when the leaf is bold |
| `TextEditor.SerializeRoundTrip` | components/advanced_text_editor/Editor.tsx:92-101 | A serialized leaf yields its text back: unescape it, after removing the `**` marks when the leaf is bold |
| `TextEditor.ExportText` | components/advanced_text_editor/Editor.tsx:103-118 | The export is the elements' pieces, in order, joined with `'\n'` |
| `TextEditor.JoinAppend` | components/advanced_text_editor/Editor.tsx:117 | Joining two non-empty lists of pieces puts exactly one separator between them |
| `TextEditor.SerializeChildrenAppend` | components/advanced_text_editor/Editor.tsx:106 | Leaves are serialized side by side with no separator |
| `TextEditor.PlainChildrenSerializeToEscapedText` | components/advanced_text_editor/Editor.tsx:106 | Leaves without bold serialize to the escape of their joined text |
| `TextEditor.CodeBlockPiece` | components/advanced_text_editor/Editor.tsx:106-110 | A code element with no bold leaf exports as ```` ```\n ```` + escaped text + ```` \n``` ````, escaped like a paragraph |
| `TextEditor.PiecesAppend` | components/advanced_text_editor/Editor.tsx:105-115 | The pieces of two documents one after the other are the pieces of each, in element order |
| `TextEditor.HeadingExportsNothing` | components/advanced_text_editor/Editor.tsx:108-114 | A heading anywhere in the document contributes nothing to the export |
| `TextEditor.ExportAppend` | components/advanced_text_editor/Editor.tsx:103-118 | The export of two documents that each export something is their exports separated by a single newline |
| `TextEditor.EmptyExports` | components/advanced_text_editor/Editor.tsx:54-61 | The empty document and the initial value both export to `''` |
| `TextEditor.KeyCommand` | components/advanced_text_editor/Editor.tsx:140-176 | Backspace means delete backward and Delete means delete forward. Ctrl+` toggles code and Ctrl+b sets bold. Anything else, or no event, does nothing. Each is stated in both directions. |
| `TextEditor.ToggleCode` | components/advanced_text_editor/Editor.tsx:152-167 | If any selected element is code, every selected element becomes a paragraph without a language. Otherwise every one becomes JavaScript code. Leaves, levels and unselected elements are unchanged. |
| `TextEditor.ToggleCodeFlips` | components/advanced_text_editor/Editor.tsx:155-166 | After the toggle, the selection holds a code element exactly when it did not before |
| `TextEditor.ToggleCodeTwice` | components/advanced_text_editor/Editor.tsx:152-167 | Toggling plain paragraphs twice gives back the document |
| `TextEditor.ToggledCodeKeepsBold` | components/advanced_text_editor/Editor.tsx:159-166 | A bold paragraph leaf turned into code stays bold and exports as ```` ```\n**x**\n``` ```` |
| `TextEditor.Bolden` | components/advanced_text_editor/Editor.tsx:169-176 | The selected leaves become bold and no leaf loses bold. Texts, element kinds, languages, levels and leaf counts are unchanged. |
| `TextEditor.BoldenIdempotent` | components/advanced_text_editor/Editor.tsx:169-176 | Setting bold twice is the same as setting it once |
| `TextEditor.BoldParagraphExport` | components/advanced_text_editor/Editor.tsx:169-176 | A paragraph `hi` made bold exports as `**hi**` |
| `TextEditor.EditorState.constructor` | components/advanced_text_editor/Editor.tsx:209-212 | The editor starts on the initial value with no selection |
| `TextEditor.EditorState.OnKeyDown` | components/advanced_text_editor/Editor.tsx:140-177 | Decides the command and cancels the default exactly for Ctrl+` and Ctrl+b. It applies the code toggle to the selected elements and bold to the selected leaves, and for those two keeps the selection. With no selection or no command, the document is unchanged. For Backspace and Delete, nothing is promised about the document or the selection. |

## Left out

- Prism's tokenizer and its language registry are external. `DecorateCode` takes the tokenizer as a function parameter and the registry as a set of language names.
- Lengths are counted in Dafny characters (Unicode scalar values), not JavaScript's UTF-16 code units. For a string content, `for…of` visits code points, so characters outside the Basic Multilingual Plane would give different offsets.
- The branch of `recurseTokenize` for an object without `content` returns `undefined`. The `Token` datatype excludes it.
- The `null` result of `serialize` for a non-text node is excluded by the leaf type.
- The Slate calls behind Backspace and Delete (`Editor.deleteBackward`, `Editor.deleteForward`) are library operations. `OnKeyDown` reports these commands and does not model the deletion.
- `TextEditor.Bolden`: Slate's `setNodes` with `split: true` first splits the leaves at the selection edges, then normalises the document. The model leaves both out and sets bold on whole leaves from the start leaf to the end leaf, so it is coarser than the source at the edges. A collapsed selection (a bare cursor) inside a non-empty leaf bolds that whole leaf, where Slate bolds nothing. A selection that ends at offset 0 of the next element's first leaf bolds that leaf too, where Slate unhangs the range first.
- `TextEditor.EditorState.OnKeyDown`: a Slate document here is one level of elements holding leaves. Slate's matching of nested elements by `Editor.nodes` and `Editor.isBlock` is not modelled. A selection touches every element from its start block to its end block. That includes a next element in which the selection only reaches offset 0: the code toggle changes it, where Slate unhangs such a range first. Backspace and Delete are reported, and the model promises nothing about the document or the selection after them.
- The `escape-html` library's source is not part of this model. `EscapeHtml.Escape` follows the library's documented mapping of `& < > " '`.
- React rendering is not modelled: `Leaf`, `DefaultElement`, `CodeLeaf`, `CodeBlock`, the JSX of `TextEditor`, `useCallback` and `useEffect`.
- The `onChange` plumbing that hands `exportText`'s result to `handleAdvancedChange` is I/O to the caller.
- Slate invoking `decorate` for each node entry is not modelled. `DecorateCode` models one invocation.
- `channel_profile.tsx` and `user_groups_modal.test.tsx` are presentational code and snapshot tests. They are not part of this model.
