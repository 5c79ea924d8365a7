# crusoe in Dafny

A verified model of the core of **crusoe**, a toy browser engine written in
TypeScript. The model follows the engine's whole pipeline:

- **DOM** (`dom.dfy`, module `Dom`): text and element nodes.
- **CSS data** (`css.dfy`, module `Css`):
  - values (keyword, length, colour);
  - simple selectors and their specificity;
  - rules and stylesheets;
  - the selector comparator used for sorting.
- **CSS parser** (`css_parser.dfy`, module `CssParser`):
  - a `Parser` class whose `pos` field its methods advance, as in `css.ts`;
  - each method is proved equal to a function on the input (`…At`, `…Loop`, `…Round`);
  - the properties are proved as lemmas about those functions;
  - `Number.parseFloat` and `parseInt(s, 16)` are modelled in `chars.dfy`, with `None` for `NaN`.
- **HTML parser** (`html.dfy`, module `HtmlParser`): built the same way from `html.ts`.
- **Style** (`style.dfy`, module `Style`):
  - selector matching and the collection of matched rules;
  - the cascade into a property map;
  - the style tree.
- **Box model** (`box_model.dfy`, module `BoxModel`):
  - `Rect` as a value;
  - `EdgeSizes` and `Dimensions` as classes whose fields the layout updates in place.
- **Layout** (`layout.dfy`, module `Layout`):
  - a `LayoutBox` class with the layout tree built in place (`buildLayoutTree`, `getInlineContainer`);
  - block layout: width, position, children, height.
  - Each method is proved against a ghost specification: `Plan` gives the placement of every box in the tree, and `BoxTree` gives the shape of the box tree.
- **Painting** (`painting.dfy`, module `Painting`):
  - the display list, built by pushing onto a `CommandList`;
  - a `Canvas` whose pixel buffer `PaintItem` updates;
  - both are proved against the specification functions `DisplayList` and `PaintAll`.

`wrappers.dfy` defines `Option`, `Result` and `Outcome`. `chars.dfy` defines the
character helpers both parsers share, including JavaScript indexing past the end
of a string, which gives `undefined`.

## How the source behaves and how the model follows it

The model follows the code as written. Where the code does something other than
what its own comments or CSS prescribe, the model keeps the code's
behaviour and a lemma states the difference.

- **Keyword comparisons.** `display()` and `calculateBlockWidth` compare a value
  with a freshly built `Keyword` object, so the comparison is by identity and
  never succeeds.
  - The members `DisplayAsWritten` and `ResolveWidthAsWritten` show this.
  - The rest of the model uses the evidently intended comparison by text (see "## Findings").
- **Auto margins.** The total width in `calculateBlockWidth` leaves the content
  width out. A 100px block with auto margins in an 800px container therefore gets
  margins of 400px each, not 350px (`CentredHundredPixels`).
- **`toPx`.** `toPx()` is called on values but defined nowhere. The model takes it
  to give the number of a `Length` and 0 for anything else (`Css.ToPx`).
- **Cascade order.** The cascade does not sort the matched rules by specificity.
  They apply in stylesheet order, so the last declaration wins
  (`CascadeLastWins`, `CascadeIgnoresSpecificity`).
- **Selector matching** compares tag names only; ids and classes are ignored
  (`MatchIgnoresIdAndClasses`). An id selector with no tag therefore never matches
  an element.
- **The selector comparator** always answers "before", because
  `compareSpecificity` always returns `true`. A sort with that comparator reverses
  the selector list (`SortReverses`).
- **The CSS parser's `nextChar`** reads the character *after* the current one.
  - `parseSimpleSelector` on `a{}` sees `{` and stops at once, so the tag name is lost (`TagNameLost`).
  - `parseValue` calls `parseColor` when the character after the cursor is `#`, so the `#` is not the character `parseColor` skips. Red is read from a window that starts on the `#`, and is always `NaN` (`ColorRedIsNaN`).
  - `parseHexPair` reads three characters and advances two. After `#ff0000ff`, green, blue and alpha read the windows `f00`, `000` and `0ff`: 3840, 0 and 255 (`ColorWindows`).
  - `parseFloat` collects the character at the cursor followed by the digits after it. `Number.parseFloat` therefore reads `padding: 10px;` from " 10" (10), `width -5px;` from "-5" (-5), and `width:5px;` from ":5" (`NaN`). These are `PaddingExample`, `NegativeExample` and `NaNExample`.
  - `parseUnit` starts on the last digit, so a length never gets the unit px (`LengthUnitNeverPx`).
- **The HTML parser.**
  - `consumeWhitespace` always consumes exactly one character, whatever it is (`WhitespaceConsumesOne`).
  - `consumeWhile` always consumes at least one character; past the end it appends the text `undefined`.
  - `startsWith("</")` tests a single character, so it never holds. An element's children therefore run to the end of the input (`ElementsComeLast`, `ParagraphBecomesText`).
- **Shared edges.** Every layout box is built with one `EdgeSizes` object shared
  by padding, border and margin.
  - Each write to one of them changes all three, so the margin box is the content expanded by three times the edges (`MarginBoxOfSharedEdges`).
  - `padding.top` is written twice, and the second write is the `padding-bottom` value.
- **`getInlineContainer`** adds a new anonymous box for every inline child of a
  block that already has children. It fails with a `TypeError` when the block has
  none.
- **Painting.**
  - The background is drawn with the `border-color` property, as the code has it.
  - `paintItem` writes only the four corner pixels of each clipped rectangle.
  - Pixel indices are `y * width + x` on unrounded numbers.
  - `Canvas.n` starts with a single white pixel, not `width * height` of them.
  - Later writes win.

Exceptions the source throws, explicitly or by calling a method on `undefined`,
become `Failure` values of a `Result` or `Outcome`. Parser loops that may run
forever take a `fuel` bound and fail with `OutOfFuel` when it runs out.

## Model

| member | source | states |
|---|---|---|
| Dom.Text | src/dom.ts:23-25 | A text node has no children, is not an element and carries the given text. |
| Dom.Elem | src/dom.ts:27-33 | An element node is an element with the given tag name and attributes and exactly the given children. |
| Dom.TextIsNotElem | src/dom.ts:14-33 | No text node equals an element node. |
| Chars.CharAt | src/css.ts:293-297 | Indexing a string gives a character exactly when the index is inside it, and then the character at that index; otherwise `undefined` (None). |
| Chars.IsJsWhitespace | src/css.ts:232 | The white space `parseInt` and `parseFloat` skip: the ECMAScript WhiteSpace and LineTerminator characters. |
| Chars.TrimStart | src/css.ts:232 | Drops exactly the leading white space: the result is a suffix, everything dropped is white space, and the result does not start with white space. |
| Chars.SplitSign | src/css.ts:232 | A leading `-` or `+` is removed, and the sign is negative exactly when it was `-`. |
| Chars.ExponentScale | src/css.ts:232 | The factor of an exponent part is positive. |
| Chars.UnsignedDecimalPrefix | src/css.ts:232 | There is a decimal literal exactly when the text starts with a digit, or with `.` and a digit. |
| Chars.ParseFloat | src/css.ts:232 | `Number.parseFloat`: leading white space skipped, an optional sign, then the longest decimal literal; `None` for `NaN`. The lemmas below state its cases. |
| Chars.ParseFloatOfDigits | src/css.ts:232 | `Number.parseFloat` of a run of decimal digits is their value. |
| Chars.ParseFloatNegates | src/css.ts:232 | A `-` in front negates the number and leaves `NaN` as `NaN`. |
| Chars.ParseFloatPlus | src/css.ts:232 | A `+` in front changes nothing. |
| Chars.ParseFloatFraction | src/css.ts:232 | A `.` in front of digits makes them a fraction: their value over 10 to the number of digits. |
| Chars.ParseFloatNoNumber | src/css.ts:232 | Text that starts with anything but white space, a sign, a digit or `.` is `NaN`. |
| Chars.ParseFloatSignedDigits | src/css.ts:232 | White space or `+` before digits gives their value, and `-` gives its negation. |
| Chars.ParseFloatLeadChar | src/css.ts:232 | Before digits, `.` gives a fraction, a digit joins the run, and any other character that is not white space or a sign gives `NaN`. |
| Chars.ParsersSkipWhitespace | src/css.ts:227-260 | Leading white space changes neither `Number.parseFloat` nor `parseInt(s, 16)`. |
| Chars.ParseInt16 | src/css.ts:260 | `parseInt(s, 16)`: leading white space skipped, an optional sign, an optional `0x` or `0X`, then the longest run of hexadecimal digits; `None` for `NaN`. The lemmas below state its cases. |
| Chars.HexDigitsAfterPrefix | src/css.ts:260 | Removing a leading `0x` or `0X` never lengthens the text. |
| Chars.HexPrefixValueBound | src/css.ts:260 | The value of the leading hexadecimal digits is below 16 to the length of the text. |
| Chars.ParseInt16Bound | src/css.ts:260 | The magnitude of `parseInt(s, 16)` is below 16 to the length of `s`, the sign included. |
| Chars.ParseInt16Negates | src/css.ts:260 | A `-` in front negates the number and leaves `NaN` as `NaN`. |
| Chars.ParseInt16OfHexDigits | src/css.ts:260 | `parseInt(s, 16)` of a run of hexadecimal digits is their value. |
| Chars.ParseInt16NoDigit | src/css.ts:260 | Text that starts with anything but white space, a sign or a hexadecimal digit is `NaN`. |
| Chars.ParseInt16SpaceExample | src/css.ts:260 | `parseInt("  d", 16)` is 13. |
| Chars.ParseInt16SignExample | src/css.ts:260 | `parseInt("-ff", 16)` is -255. |
| Chars.ParseInt16PrefixExample | src/css.ts:260 | `parseInt("0x1", 16)` is 1. |
| Chars.AsciiLower | src/css.ts:236 | ASCII lower-casing keeps the length and maps each character to itself or, for `A`-`Z`, to the lower-case letter. That decides `=== "px"` exactly as `toLowerCase` does, because only `P` and `X` lower to `p` and `x` (`PxAnyCase`). |
| Css.SimpleSelector.Specificity | src/css.ts:33-39 | The triple counts one id exactly when the id is non-empty, one tag exactly when the tag is non-empty, and the number of classes. |
| Css.ToPx | src/layout.ts:377-382 | `toPx()`, defined nowhere in the source: the number of a length, 0 for anything else. |
| Css.ValidIdentifierChar | src/css.ts:92-97 | ASCII letters, digits, `-` and `_`; `PunctuationIsNotIdentifier` states what it refuses. |
| Css.PunctuationIsNotIdentifier | src/css.ts:92-97 | `#`, `.`, `*`, `,`, space, braces, `:` and `;` are not identifier characters; `-` and `_` are. |
| Css.ComparatorIsInconsistent | src/css.ts:139-158 | `compareSpecificity` always answers true, so the sort comparator puts each of any two selectors before the other. |
| Css.CompareSpecificity | src/css.ts:146-158 | Always true: the callback's answers are discarded; `ComparatorIsInconsistent` states the consequence. |
| Css.ComparatorIgnoresIds | src/css.ts:139-158 | A selector with an id outranks one without in the lexicographic order, but the comparator still puts the one without first. |
| Css.MoreSpecificIsStrictTotal | src/css.ts:146-158 | The lexicographic order on (ids, classes, tags) that `compareSpecificity` is meant to compute is irreflexive, transitive and total. |
| CssParser.Test | src/css.ts:92-97 | A character test fails with a TypeError exactly when it is applied past the end and is not the whitespace test, which accepts `undefined`; on a character it answers the test. |
| CssParser.Parser.Eof | src/css.ts:300-302 | `eof`: the cursor is at or past the end. |
| CssParser.Parser.NextChar | src/css.ts:305-307 | `nextChar`: the character after the cursor, not at it; `undefined` past the end. |
| CssParser.ConsumeWhileAt | src/css.ts:274-290 | `consumeWhile` fails only with a TypeError from a non-whitespace test; at the end it gives the empty string without moving; it never moves back or past the end, and it moves when the next character passes. |
| CssParser.ConsumeWhileText | src/css.ts:274-290 | The text is the input between the two positions, or that and the stopping character when only the current character passes; every later character passes; the loop stops before a failing next character. |
| CssParser.SkipWhitespace | src/css.ts:269-271 | Skipping whitespace never moves back, stays inside the input and does not move at the end. |
| CssParser.SkipWhitespaceSpaces | src/css.ts:269-271 | The characters skipped after the current one are spaces, the next character where it stops is not a space, and from the last character it reaches the end. |
| CssParser.SelectorRound | src/css.ts:163-179 | One pass of the selector loop stops exactly when the next character is not `#`, `.`, `*` or an identifier character; otherwise it advances and keeps the classes seen so far. `SelectorRoundFields` states what it does to each field. |
| CssParser.SelectorRoundFields | src/css.ts:163-179 | `#` replaces the id with the identifier read, so a later id overwrites an earlier one; `.` appends exactly the class read; `*` moves on by one and changes nothing; an identifier character sets the tag name only, read from the cursor. The id or class read is empty or starts with its `#` or `.`. |
| CssParser.SimpleSelectorAt | src/css.ts:161-181 | `parseSimpleSelector` fails only with a TypeError, never moves back, keeps the classes it started with as a prefix, and stops exactly where the next character ends a selector; each pass has the field effects of `SelectorRoundFields`. |
| CssParser.SimpleSelectorMarkers | src/css.ts:161-181 | The id changes only if a `#` was read, and the class list grows only if a `.` was read, between the start and the end position. |
| CssParser.SelectorListRound | src/css.ts:125-137 | One pass of the selector-list loop never moves back; when it ends the list, the next character is `{`. |
| CssParser.SelectorsLoop | src/css.ts:123-137 | The selector-list loop never moves back. |
| CssParser.SelectorsLoopEnds | src/css.ts:123-137 | A finished selector list extends the earlier selectors by at least one and stops with `{` as the next character. |
| CssParser.SortBy | src/css.ts:139-142 | Sorting the selectors is a permutation. |
| CssParser.SortReverses | src/css.ts:139-142 | With the comparator that always answers "before", the sort returns the selectors in reverse order. |
| CssParser.SortIgnoresSpecificity | src/css.ts:138-143 | The selector with an id is more specific, yet after sorting it comes after the plain one, contrary to "highest specificity first". |
| CssParser.SelectorAt | src/css.ts:123-144 | `parseSelector` never moves back. |
| CssParser.SelectorAtPermutes | src/css.ts:123-144 | `parseSelector` succeeds exactly when its loop does; the result is a non-empty permutation of the parsed selectors, with `{` as the next character. |
| CssParser.HexPairAt | src/css.ts:254-261 | `parseHexPair` advances by two and reads `parseInt(…, 16)` of the three characters at the cursor: `NaN` or a signed value from -4095 to 4095. |
| CssParser.HexWindow | src/css.ts:254-261 | A window of three hexadecimal digits is read as their value. |
| CssParser.ChannelInRange | src/css.ts:254-261 | A channel is `NaN` or from -4095 to 4095, the range of three signed hexadecimal digits. |
| CssParser.ColorAt | src/css.ts:243-251 | `parseColor` advances by nine (one character and four pairs), and every channel is `NaN` or from -4095 to 4095. |
| CssParser.ColorRedIsNaN | src/css.ts:211-261 | When `parseValue` reads a colour, red is always `NaN`: its window starts on the `#`. |
| CssParser.ColorWindows | src/css.ts:243-261 | For `#` and eight hexadecimal digits after the cursor, red is `NaN`, and green, blue and alpha are the values of the windows that start on the second digit of their pairs. |
| CssParser.FloatAt | src/css.ts:227-233 | `parseFloat` fails only with a TypeError, never moves back, and is `Number.parseFloat` of the text `consumeWhile` collects with the digit test. |
| CssParser.ConsumeWhileRun | src/css.ts:274-290 | On a run of accepted characters ending at `end`, `consumeWhile` stops at `end` and returns the characters from the cursor, the last one only when the test accepts it. |
| CssParser.ConsumeWhileFromAccepted | src/css.ts:274-290 | Started on an accepted character, `consumeWhile` returns the characters from the cursor through the one it stops on, all accepted. |
| CssParser.ConsumeWhileAfterAccepted | src/css.ts:274-290 | When the character after the cursor is accepted, `consumeWhile` returns the character at the cursor, whatever it is, followed by the accepted run, and stops on its last character. |
| CssParser.UnitAt | src/css.ts:235-241 | `parseUnit` succeeds exactly when reading the identifier does, and gives px exactly when the identifier is `px` in any mix of cases. |
| CssParser.PxAnyCase | src/css.ts:236-237 | Lower-casing gives `px` exactly for the four spellings `px`, `pX`, `Px`, `PX`. |
| CssParser.LengthAt | src/css.ts:223-225 | `parseLength` fails only with a TypeError, never moves back, and gives a length: the `parseFloat` number, `NaN` stored as 0, with the `parseUnit` unit. |
| CssParser.NumberOrZero | src/css.ts:223-225 | The number of a length, with `NaN` as 0. |
| CssParser.LengthUnitNeverPx | src/css.ts:211-241 | A length read by `parseValue` never has the unit px, because the unit text starts on the last digit. |
| CssParser.LengthOfRun | src/css.ts:223-241 | After digits up to `end` and identifier characters up to `uend`, the value is the length of `Number.parseFloat` of the text from the cursor through the last digit, with no unit, ending at `uend`. |
| CssParser.PaddingNumber | src/css.ts:232 | `Number.parseFloat(" 10")` is 10. |
| CssParser.NegativeNumber | src/css.ts:232 | `Number.parseFloat("-5")` is -5. |
| CssParser.NaNNumber | src/css.ts:232 | `Number.parseFloat(":5")` is `NaN`. |
| CssParser.PaddingValue | src/css.ts:211-241 | In `padding: 10px;` the value read from the space is the length 10 with no unit. |
| CssParser.NegativeValue | src/css.ts:211-241 | In `width -5px;` the value read from the `-` is the length -5 with no unit. |
| CssParser.NaNFloat | src/css.ts:227-233 | In `width:5px;` the number read from the colon is `NaN`, and the cursor ends on the digit. |
| CssParser.NaNValue | src/css.ts:211-241 | In `width:5px;` the value read from the colon is the length 0 with no unit, since the `NaN` number is stored as 0. |
| CssParser.PaddingDeclaration | src/css.ts:199-241 | Any seven-character name followed by `: 10px;` is a declaration of that name with the length 10, ending on the `;`. |
| CssParser.NegativeDeclaration | src/css.ts:199-241 | Any five-character name followed by ` -5px;` is a declaration of that name with the length -5. |
| CssParser.NaNDeclaration | src/css.ts:199-241 | Any five-character name followed by `:5px;` is a declaration of that name with the length 0, its number being `NaN`. |
| CssParser.PaddingExample | src/css.ts:199-241 | `padding: 10px;` parses to `padding` with the length 10 and no unit, ending at 13. |
| CssParser.NegativeExample | src/css.ts:199-241 | `width -5px;` parses to `width` with the length -5 and no unit. |
| CssParser.NaNExample | src/css.ts:199-241 | In `width:5px;` the number is `NaN`, and the declaration is `width` with the length 0 and no unit. |
| CssParser.ValueAt | src/css.ts:211-221 | `parseValue` fails only with a TypeError and never moves back. |
| CssParser.ValueKinds | src/css.ts:211-221 | The value is a colour exactly when the next character is `#`, a length exactly when it is a digit, and a keyword otherwise (the end included); a colour always advances nine. |
| CssParser.DeclarationAt | src/css.ts:199-208 | `parseDeclaration` fails only with a TypeError and advances at least past the `:` and `;`. |
| CssParser.DeclaredValueAt | src/css.ts:201-206 | The part of `parseDeclaration` after the name fails only with a TypeError and advances at least two. |
| CssParser.ValueEndAt | src/css.ts:204-206 | The value, the whitespace and the `;` of a declaration fail only with a TypeError and advance at least one. |
| CssParser.DeclarationsLoop | src/css.ts:187-195 | The declaration loop fails only with a TypeError or for lack of fuel; when it ends it has advanced, keeps the earlier declarations and stops on the `}`. |
| CssParser.DeclarationsStep | src/css.ts:189-191 | A round ends the loop with the declarations so far exactly when `}` is the next character, and otherwise ends as the loop does. |
| CssParser.DeclarationsPush | src/css.ts:192-193 | Pushing a declaration and running the rest of the loop adds at least one declaration and ends on a `}`. |
| CssParser.DeclarationsNeverEnd | src/css.ts:187-194 | Once the input is exhausted the declaration loop never ends; the model runs out of fuel. |
| CssParser.DeclarationsAt | src/css.ts:184-196 | `parseDeclarations` advances past the `{` and the `}`. |
| CssParser.RuleAt | src/css.ts:118-120 | `parseRule` always advances. |
| CssParser.RulesLoop | src/css.ts:108-116 | `parseRules` ends at or past the end of the input and keeps the rules already parsed. |
| CssParser.StylesheetOf | src/css.ts:87-90 | An empty source gives an empty stylesheet. |
| CssParser.TagNameLostSelector | src/css.ts:161-181 | On `a{}` the simple selector stops before the tag, giving the empty selector. |
| CssParser.TagNameLostDeclarations | src/css.ts:184-196 | On `a{}` the declarations parsed from the start are empty and end at position 2. |
| CssParser.TagNameLost | src/css.ts:87-90 | `a{}` parses to one rule whose only selector is empty and which has no declarations. |
| CssParser.Parser.constructor | src/css.ts:103-106 | The parser starts at the given position on the given input. |
| CssParser.Parser.ConsumeChar | src/css.ts:293-297 | Returns the current character (None past the end) and advances by one. |
| CssParser.Parser.ConsumeWhile | src/css.ts:274-290 | Result and new position are those of `ConsumeWhileAt`. |
| CssParser.Parser.ParseIdentifier | src/css.ts:264-266 | Reads with the identifier test, as `ConsumeWhileAt`. |
| CssParser.Parser.ConsumeWhitespace | src/css.ts:269-271 | The new position is `SkipWhitespace` of the old one. |
| CssParser.Parser.ParseSelectorPart | src/css.ts:164-178 | One pass of the selector loop, as `SelectorRound`. |
| CssParser.Parser.ParseSimpleSelector | src/css.ts:161-181 | Result and new position are those of `SimpleSelectorAt` from the empty selector. |
| CssParser.Parser.ParseSelectorRound | src/css.ts:126-136 | One pass of the selector-list loop, as `SelectorListRound`. |
| CssParser.Parser.ParseSelector | src/css.ts:123-144 | Result and new position are those of `SelectorAt`. |
| CssParser.Parser.ParseHexPair | src/css.ts:254-261 | Value and new position are those of `HexPairAt`: `parseInt(…, 16)` of three characters, two consumed. |
| CssParser.Parser.ParseColor | src/css.ts:243-251 | Colour and new position are those of `ColorAt`: four channels, each `NaN` or from -4095 to 4095, nine characters on. |
| CssParser.Parser.ParseFloat | src/css.ts:227-233 | Result and new position are those of `FloatAt`: `Number.parseFloat` of the collected text. |
| CssParser.Parser.ParseUnit | src/css.ts:235-241 | Result and new position are those of `UnitAt`. |
| CssParser.Parser.ParseLength | src/css.ts:223-225 | Result and new position are those of `LengthAt`: the number (`NaN` as 0) and the unit. |
| CssParser.Parser.ParseValue | src/css.ts:211-221 | Result and new position are those of `ValueAt`. |
| CssParser.Parser.ParseDeclaration | src/css.ts:199-208 | Result and new position are those of `DeclarationAt`. |
| CssParser.Parser.ParseDeclaredValue | src/css.ts:201-206 | Result and new position are those of `DeclaredValueAt`. |
| CssParser.Parser.ParseValueEnd | src/css.ts:204-206 | Result and new position are those of `ValueEndAt`. |
| CssParser.Parser.DeclarationsNext | src/css.ts:187-194 | One pass either fails as the whole loop does, ends the loop where it stops, or leaves the rest of the loop to run with the new declaration appended. |
| CssParser.Parser.ParseDeclarations | src/css.ts:184-196 | Result and new position are those of `DeclarationsAt`. |
| CssParser.Parser.ParseRule | src/css.ts:118-120 | Result and new position are those of `RuleAt`. |
| CssParser.Parser.ParseRules | src/css.ts:108-116 | Result and new position are those of `RulesLoop` from no rules. |
| CssParser.Parse | src/css.ts:87-90 | The stylesheet is `StylesheetOf` the source. |
| HtmlParser.Test | src/html.ts:93-96 | Only the tag-name test can fail, with a TypeError, and only past the end; the whitespace test (`s === ""`) never accepts. |
| HtmlParser.Parser.Eof | src/html.ts:125-127 | `eof`: the cursor is at or past the end. |
| HtmlParser.Parser.NextChar | src/html.ts:115-117 | `nextChar`: the character after the cursor, not at it; `undefined` past the end. |
| HtmlParser.Parser.StartsWith | src/html.ts:120-122 | `startsWith` tests the single character at the cursor. |
| HtmlParser.ConsumeWhileAt | src/html.ts:106-112 | `consumeWhile` always advances; past the end it gives the text `undefined` and moves one; only the tag-name test makes it fail. |
| HtmlParser.MoreAt | src/html.ts:108-110 | The repeat part of `consumeWhile` never moves back or past the end, and at the end adds nothing. |
| HtmlParser.MoreText | src/html.ts:106-112 | The repeat part reads exactly the input between the positions; every character it takes passes the test, and the next one where it stops fails. |
| HtmlParser.ConsumeWhileText | src/html.ts:106-112 | Inside the input, `consumeWhile` reads the text between the positions; every character after the first two passes, and it stops before a failing next character. |
| HtmlParser.WhitespaceConsumesOne | src/html.ts:62-64 | `consumeWhitespace` consumes exactly the current character, whatever it is. |
| HtmlParser.NeverStartsWithClose | src/html.ts:120-122 | `startsWith("</")` tests one character and never holds. |
| HtmlParser.TextAt | src/html.ts:57-59 | `parseText` gives a text node and advances, staying inside the input. |
| HtmlParser.TextStopsBeforeOpenAngle | src/html.ts:57-59 | The text node holds the input between the positions; it holds no `<` after its first two characters and stops with `<` next. |
| HtmlParser.AttrValueAt | src/html.ts:73-77 | `parseAttrValue` advances at least two. |
| HtmlParser.AttrAt | src/html.ts:66-71 | `parseAttr` fails only with a TypeError and advances at least three. |
| HtmlParser.AttributeRound | src/html.ts:82-87 | One pass of the attribute loop always advances. |
| HtmlParser.AttributesLoop | src/html.ts:81-88 | The attribute loop always advances. |
| HtmlParser.AttributesLoopEnds | src/html.ts:81-89 | A finished attribute loop keeps the attributes already read and stops with `>` as the next character. |
| HtmlParser.AttributesNeverEnd | src/html.ts:81-88 | Near the end of the input the attribute loop never ends; the model runs out of fuel. |
| HtmlParser.ToMap | src/html.ts:80-87 | The attribute object filled by `attributes[name] = value` in order; `ToMapKeys` and `ToMapLastWins` state its keys and values. |
| HtmlParser.ToMapKeys | src/html.ts:80-89 | The attribute map has exactly the names read as keys. |
| HtmlParser.ToMapLastWins | src/html.ts:86-87 | A name's value in the attribute map is the value of its last occurrence. |
| HtmlParser.ToMapSnoc | src/html.ts:86-87 | Reading one more attribute updates the map at that name. |
| HtmlParser.AttributesAt | src/html.ts:79-90 | `parseAttributes` always advances. |
| HtmlParser.NodesLoop | src/html.ts:21-31 | `parseNodes` advances to the end of the input or beyond and keeps the nodes already read. |
| HtmlParser.NodeAt | src/html.ts:33-38 | `parseNode` advances, gives an element exactly when the next character is `<`, and an element runs past the end. |
| HtmlParser.ElementAt | src/html.ts:40-55 | `parseElement` gives an element and runs past the end of the input. |
| HtmlParser.ElementsComeLast | src/html.ts:21-55 | Among the nodes read, only the last can be an element. |
| HtmlParser.DocumentOf | src/html.ts:3-9 | `parse`: the nodes read from the start, the single node or an `html` element around them; `DocumentShape` states the cases. |
| HtmlParser.DocumentShape | src/html.ts:3-9 | `parse` succeeds exactly when `parseNodes` does; one node is returned as is, any other number is wrapped in an `html` element; a source of at most one character gives an empty `html` element. |
| HtmlParser.ParagraphBecomesText | src/html.ts:3-38 | `<p>hi</p>` parses to an `html` element holding the texts `p>h` and `</p>`. |
| HtmlParser.Parser.constructor | src/html.ts:15-18 | The parser starts at the given position on the given input. |
| HtmlParser.Parser.ConsumeChar | src/html.ts:99-103 | Returns the current character (None past the end) and advances by one. |
| HtmlParser.Parser.ConsumeWhile | src/html.ts:106-112 | Result and new position are those of `ConsumeWhileAt`. |
| HtmlParser.Parser.ConsumeWhitespace | src/html.ts:62-64 | Advances by exactly one. |
| HtmlParser.Parser.ParseTagName | src/html.ts:93-96 | Reads with the tag-name test, as `ConsumeWhileAt`. |
| HtmlParser.Parser.ParseText | src/html.ts:57-59 | Node and new position are those of `TextAt`. |
| HtmlParser.Parser.ParseAttrValue | src/html.ts:73-77 | Value and new position are those of `AttrValueAt`. |
| HtmlParser.Parser.ParseAttr | src/html.ts:66-71 | Result and new position are those of `AttrAt`. |
| HtmlParser.Parser.ParseAttributes | src/html.ts:79-90 | Result and new position are those of `AttributesAt`. |
| HtmlParser.Parser.ParseAttributeRound | src/html.ts:82-87 | One pass of the attribute loop, as `AttributeRound`. |
| HtmlParser.Parser.ParseNodes | src/html.ts:21-31 | Result and new position are those of `NodesLoop` from no nodes. |
| HtmlParser.Parser.ParseNode | src/html.ts:33-38 | Result and new position are those of `NodeAt`. |
| HtmlParser.Parser.ParseElement | src/html.ts:40-55 | Result and new position are those of `ElementAt`. |
| HtmlParser.Parser.ParseClosingTag | src/html.ts:49-52 | Past the end, the closing-tag steps advance by four. |
| HtmlParser.Parse | src/html.ts:3-9 | The document is `DocumentOf` the source. |
| Style.StyleNode.ValueOf | src/style.ts:29-31 | A property has a value exactly when it is in the specified values, and then it is that value. |
| Style.StyleNode.Lookup | src/style.ts:35-41 | The value is the property's, else the fallback property's, else the default. |
| Style.StyleNode.Display | src/style.ts:44-54 | Block exactly when `display` is the keyword `block`, none exactly when it is `none`, inline otherwise. |
| Style.DisplayAsWrittenIgnoresKeyword | src/style.ts:44-54 | As written, `display()` answers inline even for `display: block` or `display: none`. |
| Style.MatchSimpleSelector | src/style.ts:123-134 | Only the tag names are compared; `MatchIgnoresIdAndClasses` states it. |
| Style.Matches | src/style.ts:116-121 | Every selector is simple, so matching is `MatchSimpleSelector`. |
| Style.MatchIgnoresIdAndClasses | src/style.ts:123-134 | A selector matches exactly when its tag name equals the element's; the id and classes change nothing, and an empty tag never matches a named element. |
| Style.FirstMatching | src/style.ts:108 | `find` gives the first matching selector, or none when no selector matches. |
| Style.MatchRule | src/style.ts:107-113 | A rule matches exactly when one of its selectors does; the result pairs the rule with the specificity of its first matching selector. |
| Style.MatchedRulesExact | src/style.ts:96-104 | Each matched rule is the match of the rule at the matching index. |
| Style.MatchedIndicesExact | src/style.ts:96-104 | The matched indices are increasing, and an index is among them exactly when its rule matches. |
| Style.MatchedRules | src/style.ts:96-104 | The matches of the matching rules in stylesheet order; `MatchedRulesExact` and `MatchedIndicesExact` state it. |
| Style.MatchingRules | src/style.ts:96-104 | The matched rules, in stylesheet order. |
| Style.TwoMatchedRules | src/style.ts:96-104 | Two matching rules give their two matches in order. |
| Style.ApplyDeclarationsLastWins | src/style.ts:84-89 | After applying declarations, a property is present exactly when it was before or is declared; a declared property has the value of its last declaration, and an undeclared one keeps its old value. |
| Style.ApplyOneMore | src/style.ts:86-88 | Applying one more declaration overwrites that property. |
| Style.AllDeclarationsOneMore | src/style.ts:84-89 | One more matched rule appends its declarations. |
| Style.Cascade | src/style.ts:77-91 | The declarations of the matched rules written into an empty map in order; `CascadeLastWins` states the result. |
| Style.CascadeLastWins | src/style.ts:77-91 | A property is specified exactly when a matching rule declares it, with the value of the last such declaration in stylesheet order. |
| Style.CascadeIgnoresSpecificity | src/style.ts:83-89 | `div.note { display: none }` is more specific than `div { display: block }`, yet the later `block` wins. |
| Style.NoMatchGivesEmptyMap | src/style.ts:77-91 | When no selector has the element's tag, nothing matches and the map is empty. |
| Style.SpecifiedValues | src/style.ts:77-91 | The property map is the cascade of the matched rules. |
| Style.StyleTree | src/style.ts:65-75 | The style node holds the DOM node, the cascade for an element or no values for text, and one child per DOM child, in order. |
| Style.StyleTreeMirrors | src/style.ts:65-75 | The style tree mirrors the DOM tree at every depth. |
| BoxModel.Rect.ExpandedBy | src/layout.ts:18-26 | The expanded rectangle's edges move out by the left, top, right and bottom sizes. |
| BoxModel.ExpansionContains | src/layout.ts:18-26 | Expanding by non-negative edges contains the original rectangle. |
| BoxModel.ExpandTwice | src/layout.ts:18-26 | Expanding by one edge and then another moves each side out by the sum of the two edges' sizes on that side. |
| BoxModel.EdgeSizes.constructor | src/layout.ts:34-39 | The four sizes are the given ones. |
| BoxModel.Dimensions.constructor | src/layout.ts:48-59 | The content and the three edge objects are the given ones. |
| BoxModel.Dimensions.PaddingBox | src/layout.ts:60-63 | The padding box is the content grown by the BORDER sizes, as written. |
| BoxModel.Dimensions.BorderBox | src/layout.ts:65-68 | The border box is the content grown by twice the border sizes on each side. |
| BoxModel.Dimensions.MarginBox | src/layout.ts:70-73 | The margin box is the content grown by twice the border sizes and once the margin sizes on each side. |
| BoxModel.MarginBoxOfSharedEdges | src/layout.ts:61-76 | With one edge object shared, the margin box is the content expanded by three times the edges. |
| BoxModel.BoxesNest | src/layout.ts:61-76 | With non-negative edges, the content, padding box, border box and margin box nest. |
| Layout.Sum | src/layout.ts:377-382 | The sum of non-negative values is non-negative. |
| Layout.SumAppend | src/layout.ts:377-382 | The sum of two lists joined is the sum of the sums. |
| Layout.SumOfSix | src/layout.ts:159-166 | The total is the sum of the six edge values in px. |
| Layout.SpecifiedHorizontal | src/layout.ts:140-157 | The looked-up width (auto when absent), margins, borders and paddings, with their fallback properties and a 0px default. |
| Layout.ResolveWidth | src/layout.ts:159-219 | The adjustments of `calculateBlockWidth`, case by case; `ResolveWidthFills` and `AutoMarginsCentre` state what they achieve. |
| Layout.UsedHorizontal | src/layout.ts:140-220 | The adjusted horizontal values are `ResolveWidth` of the looked-up ones. |
| Layout.ResolveWidthFills | src/layout.ts:178-213 | Borders and padding keep their values. A set width is kept and the margins make up the rest of the container: two auto margins share a non-negative underflow equally, a single auto left margin becomes it, and otherwise the left margin keeps its value and the right one gains the underflow. An auto width is the underflow when that is non-negative; otherwise it is 0 and the negative underflow is added to the right margin. |
| Layout.AutoMarginsCentre | src/layout.ts:215-219 | With a set width and both margins auto, the margins are equal and non-negative. |
| Layout.CentredHundredPixels | src/layout.ts:159-219 | A 100px block with auto margins in 800px gets margins of 400px each. |
| Layout.ResolveWidthAsWritten | src/layout.ts:140-232 | As written, the width succeeds exactly when `width` is specified, and the right margin always absorbs the underflow. |
| Layout.WidthAsWrittenIgnoresAuto | src/layout.ts:143-232 | As written, the 100px block with auto margins gets margins 0px and 800px instead of 400px each, and a block without `width` throws instead of filling the container. |
| Layout.BoxTree | src/layout.ts:349-375 | The layout tree `buildLayoutTree` builds, or its failure on a root with display none; `LayableIff` states when it succeeds. |
| Layout.ChildBoxes | src/layout.ts:367-373 | The children's boxes: display none skipped, an inline child of a block wrapped in a new anonymous box, failing when the block has no child yet. |
| Layout.LayableIff | src/layout.ts:349-375 | Building the box tree succeeds with no anonymous box exactly when the style tree can be laid out; the root box holds the root style node. |
| Layout.ChildBoxesIff | src/layout.ts:367-373 | The children's boxes build with no anonymous box exactly when every child can be laid out. |
| Layout.Place | src/layout.ts:238-271 | The margin box starts at the container's left and below its content; the content width is the resolved width and the height is the used height. |
| Layout.Plan | src/layout.ts:120-134 | The placement of a tree places its root box. |
| Layout.PlanKeys | src/layout.ts:277-283 | The plan places exactly the boxes of the tree. |
| Layout.ChildrenStack | src/layout.ts:277-283 | Each child's margin box starts at the parent's left, below the children before it, and the running height grows by its margin box. |
| Layout.SiblingsAbut | src/layout.ts:277-283 | Each child's margin box starts where the previous one ends. |
| Layout.ChildrenFillParent | src/layout.ts:277-292 | The first child starts at the top of the parent's content and the last ends at its bottom. |
| Layout.LayoutBox.constructor | src/layout.ts:89-98 | A new box has the given type and no children, and fresh dimensions at the origin whose three edges are one object. |
| Layout.LayoutBox.GetStyleNode | src/layout.ts:100-108 | Gives the style node of a block or inline box, and fails for an anonymous box. |
| Layout.LayoutBox.CalculateBlockWidth | src/layout.ts:140-232 | Fails for an anonymous box and changes nothing. Otherwise sets the content width and the horizontal margins to the resolved values and leaves the rest. |
| Layout.LayoutBox.CalculateBlockPosition | src/layout.ts:238-272 | Fails for an anonymous box and changes nothing. Otherwise sets the vertical edges and puts the content at the container's left and below its content, offset by three times the edges. |
| Layout.LayoutBox.CalculateBlockHeight | src/layout.ts:287-292 | Fails for an anonymous box. Otherwise sets the content height to the specified height when there is one. |
| Layout.LayoutBox.Layout | src/layout.ts:111-117 | Succeeds exactly when no box in the tree is anonymous, and then every box is where `Plan` puts it. |
| Layout.LayoutBox.LayoutBlock | src/layout.ts:120-134 | Succeeds exactly when no box in the tree is anonymous, and then every box is where `Plan` puts it. |
| Layout.LayoutBox.FinishBlock | src/layout.ts:133 | Once the children are placed, setting the height puts the whole tree where `Plan` puts it. |
| Layout.LayoutBox.LayoutChild | src/layout.ts:279-283 | A child is laid out below the ones before it and the parent grows by its margin box, or it fails on an anonymous box. |
| Layout.LayoutBox.LayoutNext | src/layout.ts:279-283 | One pass of the children loop keeps the loop's invariant for one more child. |
| Layout.LayoutBox.LayoutBlockChildren | src/layout.ts:277-284 | Succeeds exactly when no child tree holds an anonymous box, and then all children are placed and the content has grown by their margin boxes. |
| Layout.LayoutBox.GetInlineContainer | src/layout.ts:295-316 | An inline or anonymous box is its own container. A block with no children fails with a TypeError. A block with children gets a new, empty anonymous child, which is returned. |
| Layout.BuildLayoutTree | src/layout.ts:349-375 | Succeeds exactly when `BoxTree` does, with its error otherwise, and then builds fresh boxes of exactly that shape. |
| Layout.PushChild | src/layout.ts:367-373 | Adding one child keeps the tree built so far and extends it to the shape of one more child. |
| Layout.AppendToRoot | src/layout.ts:368-369 | A block child's subtree is appended to the root. |
| Layout.AppendToAnonymous | src/layout.ts:370-371 | An inline child's subtree is appended under a new anonymous child of the root. |
| Layout.LayoutTree | src/layout.ts:336-346 | Sets the container height to zero. Succeeds exactly when the style tree can be laid out, with its error otherwise, and then places every box where `Plan` puts it. |
| Painting.GetColor | src/painting.ts:85-94 | A colour is found exactly when the box is not anonymous and the property is a colour value, and then it is that colour. |
| Painting.Background | src/painting.ts:29-33 | The border box filled with the `border-color` colour, if any. |
| Painting.Borders | src/painting.ts:35-83 | Four strips along the inside of the border box, if there is a colour. |
| Painting.BoxCommands | src/painting.ts:23-83 | A box's background command, then its border commands; `BoxCommandsShape` states them. |
| Painting.BoxCommandsShape | src/painting.ts:29-83 | No colour gives no command. A colour gives five commands in that colour: the border box, then the left, right, top and bottom strips with their exact geometry, each inside the border box when the borders fit. |
| Painting.DisplayList | src/painting.ts:17-27 | The commands of a layout tree in pre-order; `DisplayListLength` and `DisplayListOrder` state them. |
| Painting.DisplayListLength | src/painting.ts:17-27 | The display list holds five commands per box that has a colour. |
| Painting.KidsListLength | src/painting.ts:26 | The children's commands number five per coloured box among them. |
| Painting.DisplayListOrder | src/painting.ts:23-27 | A box's own commands come first, then each child's in child order. |
| Painting.CommandList.constructor | src/painting.ts:18 | A new list is empty. |
| Painting.CommandList.Push | src/painting.ts:32 | Pushing appends one command. |
| Painting.RenderBackground | src/painting.ts:29-33 | Appends the background command, if any. |
| Painting.RenderBorders | src/painting.ts:35-83 | Appends the four border commands, if any. |
| Painting.RenderLayoutBox | src/painting.ts:23-27 | Appends the display list of the box's tree. |
| Painting.RenderChildren | src/painting.ts:26 | Appends the children's display lists in order. |
| Painting.BuildDisplayList | src/painting.ts:17-21 | The list is the display list of the tree. |
| Painting.Clamp | src/painting.ts:139-140 | The result lies within the bounds when they are ordered, is the target when it is inside, and is the upper bound when the bounds are reversed. |
| Painting.ClampIdempotent | src/painting.ts:139-140 | Clamping twice is clamping once. |
| Painting.ClippedXs | src/painting.ts:117-119 | The two clipped x coordinates lie within the canvas width. |
| Painting.ClippedYs | src/painting.ts:118-120 | The two clipped y coordinates lie within the canvas height. |
| Painting.Corners | src/painting.ts:122-127 | A command writes four pixels. |
| Painting.CornerAt | src/painting.ts:122-127 | The writes come in order rows y0, y1, columns x0, x1, at index `y * width + x`. |
| Painting.StampEffect | src/painting.ts:122-127 | A written pixel gets the colour, and every other pixel is unchanged. |
| Painting.Painted | src/painting.ts:113-129 | The pixels after one item: its four corners written with its colour. |
| Painting.PaintAll | src/painting.ts:132-137 | The pixels after painting the items in order; `LaterWritesWin` and `UntouchedPixelsKeep` state the result. |
| Painting.LaterWritesWin | src/painting.ts:132-137 | A pixel has the colour of the last command that writes it. |
| Painting.UntouchedPixelsKeep | src/painting.ts:132-137 | A pixel no command writes keeps its value. |
| Painting.Canvas.constructor | src/painting.ts:101-105 | The canvas holds the given pixels and size. |
| Painting.Canvas.N | src/painting.ts:107-111 | A new canvas of the given size holds one white pixel at index 0. |
| Painting.Canvas.PaintItem | src/painting.ts:113-129 | The pixels are those after writing the item's four corners. |
| Painting.Paint | src/painting.ts:132-137 | The canvas is the white canvas with the whole display list painted in order. |

## Left out

- I/O, the command-line entry point (`main.ts`) and the test files are not part of this model.
- Numbers are modelled as unbounded reals, with no IEEE-754 rounding or infinities. `NaN` is modelled only where the parsers produce it, as `None`.
- Property and attribute maps are modelled as maps; JavaScript's special object keys such as `__proto__` are not modelled.
- CssParser.LengthAt: a `NaN` number is stored in the length as 0, because the layout arithmetic has no `NaN`. JavaScript would carry `NaN` into the layout.
- CssParser.Parser.ParseLength: stores a `NaN` number as 0, as `LengthAt` does.
- Chars.ParseFloat: the `Infinity` literal is not recognised. `parseFloat` only ever sees one character followed by digits, so the text never holds it. The value is exact, with no IEEE-754 rounding.
- CssParser.SortBy: the sort is an insertion sort, not V8's TimSort. With the comparator that always answers "before", TimSort sees one strictly descending run and reverses it at any length, so the result is the same.
- Loops that may not terminate (the CSS declaration and selector loops, and the HTML attribute loop, the only HTML loop bounded this way) take a `fuel` bound. `parseNodes`/`parseElement` terminate on the remaining input and only pass the fuel on to the attribute loop. When the fuel runs out they fail with `OutOfFuel`. Behaviour that needs more steps than the fuel allows is not captured.
- Chars.CharAt: strings are sequences of Unicode scalar values, not of UTF-16 code units as JavaScript indexes them. On input holding a character outside the Basic Multilingual Plane, every read at `pos` or `pos + 1` and every one-step `consumeChar` of both parsers lands on a different character than in JavaScript, so their behaviour on such text is not captured.
- Chars.AsciiLower: lowers only `A`-`Z`. `toLowerCase` also lowers non-ASCII letters and can change the length (U+0130 becomes two code units). Only the comparison with `"px"` uses the result, and it comes out the same.
- Alpha compositing is not modelled. `paintItem` only has a `TODO` for it and overwrites the pixel.
- Thrown exceptions become `Failure` values. Their messages and the JavaScript stack unwinding are not modelled, nor are the partial updates a throw leaves in objects not named in the method's contract.
- The empty `else` branch of `layout` (a falsy box type) has no counterpart. It cannot happen, because every box has a type object.

## Findings

| source | as written | input that shows it | evidently intended | confidence | as-written member | corrected member |
|---|---|---|---|---|---|---|
| src/style.ts:44-54 | `display()` compares the value with a new `Keyword` object in a `switch`, which compares by identity, so it always answers inline | a style node whose `display` is the keyword `block` | `block` and `none` give block and none | not executed | Style.DisplayAsWrittenIgnoresKeyword | Style.StyleNode.Display |
| src/layout.ts:140-232 | every comparison with the new `auto` keyword is by identity, so auto widths and margins are never recognised, and an absent `width` makes `width.toPx()` throw | `width: 100px; margin: auto` in an 800px container gives margins 0px and 800px; a box with no `width` throws | auto margins share the underflow equally, and an absent width is auto and fills the container | not executed | Layout.WidthAsWrittenIgnoresAuto | Layout.AutoMarginsCentre |
