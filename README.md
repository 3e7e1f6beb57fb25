# slideck in Dafny

slideck is a terminal slide presenter written in Ruby. It reads a markdown
deck and cuts it into slides at lines of three or more dashes. A first slide
of `key: value` lines is taken as the deck's configuration, called metadata.
The metadata is checked against a closed set of keys, converted into
alignments, margins, footers and pagers, and merged over defaults. Each
slide's content, footer and pager are then placed on the terminal by
integer arithmetic. The keyboard moves through the deck until "q".

This project models that pipeline, one Dafny module per Ruby class:

- `Alignment` and `Margin` are the layout values, with their parsing and
  validation errors.
- The metadata pipeline is split across several modules:
  - `Errors` holds the error classes and the unknown-key message.
  - `MetadataValues` holds the keys and the converted values.
  - `MetadataConverter`, `MetadataDefaults`, `Metadata`, `MetadataWrapper`
    and `MetadataParser` model the Ruby classes of the same names.
- `Parser` splits the document. Its scanner loop is an imperative method
  proved against a specification function.
- `Tracker` is the immutable position in the deck.
- `Renderer` computes the screen layout as a list of cursor moves and texts.
- `Presenter` is a class whose fields the key handlers update. Each handler
  is specified by a function on a state value, and the session's properties
  are lemmas about those functions.
- `Values` and `RubyText` carry the underlying Ruby semantics: values and
  hashes in insertion order, `String#split`, `#to_i`, `#lines`, `#chomp`
  and `Array#join`. `Wrappers` holds the `Option` and `Result` types.

Raised exceptions are `Failure` results carrying the error's class and
message. Messages follow Ruby 3.4: `NoMethodError` reads "undefined method
'name' for an instance of Integer", and `Hash#inspect` writes a Symbol key
as `name: value`. Crashes of Ruby itself (a method called on `nil`) are a
`NoMethodError` failure.

## Model

| member | source | states |
|---|---|---|
| Values.Lookup | lib/slideck/margin.rb:123 | Hash#[] is nil exactly when no entry has the key, and otherwise gives a value stored under that key |
| Values.Store | lib/slideck/metadata_converter.rb:36-38 | Hash#[]= makes the key give the new value and leaves every other key's lookup as it was |
| Values.StoreAppends | lib/slideck/metadata_converter.rb:36-38 | storing a key the hash does not yet hold appends the entry, so a hash built key by key keeps insertion order |
| Values.StoreKeys | lib/slideck/metadata_parser.rb:168-172 | Hash#[]= keeps the key order: the keys are unchanged when the key is already there, and the new key comes last otherwise |
| Values.StoreKeepsKeys | lib/slideck/metadata_parser.rb:168-172 | storing a key the hash already holds leaves its list of keys exactly as it was |
| RubyText.SplitJoin | lib/slideck/margin.rb:21 | String#split on [ ,]+ recovers the fields from any non-empty run of spaces and commas between fields that hold neither |
| RubyText.ToIIntToString | lib/slideck/margin.rb:138 | String#to_i reads back the number Integer#to_s writes, negative ones included |
| RubyText.ToIDigits | lib/slideck/presenter.rb:209 | a string of digits converts by String#to_i to the decimal number it spells |
| RubyText.LinesConcat | lib/slideck/renderer.rb:116 | String#lines cuts a string into pieces that join back to it, each piece but the last ending with its newline and holding no other |
| RubyText.ChompNewline | lib/slideck/parser.rb:95 | String#chomp removes exactly one trailing newline added to a string that does not end in a carriage return |
| RubyText.ChompUnchanged | lib/slideck/parser.rb:95 | String#chomp leaves a string that ends in neither a newline nor a carriage return as it is |
| Tracker.For | lib/slideck/tracker.rb:19-21 | a new tracker starts at the first slide (0) and keeps the given total; on a non-empty deck that position names a slide |
| Tracker.Next | lib/slideck/tracker.rb:69-73 | the position moves on by exactly one unless it is already at or past the last slide, in which case the same tracker comes back; the total never changes and a valid position stays valid |
| Tracker.Previous | lib/slideck/tracker.rb:83-87 | the position moves back by exactly one unless it is at the first slide, where the same tracker comes back; the total never changes and a valid position stays valid |
| Tracker.First | lib/slideck/tracker.rb:97-99 | the position becomes 0 and the total is kept |
| Tracker.Last | lib/slideck/tracker.rb:109-111 | the position becomes total - 1, which names a slide exactly when the deck is non-empty |
| Tracker.GoTo | lib/slideck/tracker.rb:124-128 | the tracker jumps to the slide exactly when 0 <= slide <= total - 1 and is returned unchanged otherwise; a valid position stays valid |
| Tracker.Resize | spec/unit/tracker_spec.rb:110-150 | a negative or unchanged total leaves the tracker alone; otherwise the new total is taken, a position still inside the deck is kept, one past its end moves to the last slide, and an empty deck or a negative position gives 0 |
| Tracker.RunKeepsTotal | lib/slideck/tracker.rb:54-59 | no sequence of next, previous, first, last and go_to changes the total, and on a non-empty deck every such sequence keeps the position on a slide |
| Tracker.NextSaturates | spec/unit/tracker_spec.rb:46-52 | n steps forward from a valid position end at current + n, or at the last slide if that would pass it |
| Tracker.PreviousSaturates | spec/unit/tracker_spec.rb:38-44 | n steps back end at current - n, or at the first slide if that would pass it |
| Tracker.NextPrevious | spec/unit/tracker_spec.rb:29-36 | going forward then back returns the same tracker whenever the position is before the last slide |
| Tracker.EmptyDeckStays | spec/unit/tracker_spec.rb:54-61 | on a deck of zero slides any number of next steps followed by previous steps leaves the tracker at 0 |
| Alignment.Alignment.ToA | lib/slideck/alignment.rb:159-161 | to_a is the pair [horizontal, vertical], the first one of HORIZONTAL_VALUES and the second one of VERTICAL_VALUES |
| Alignment.ParseHorizontal | lib/slideck/alignment.rb:175-181 | a horizontal value is accepted exactly when it is one of left, center, right, and the accepted value reads back as the same text |
| Alignment.ParseVertical | lib/slideck/alignment.rb:193-199 | a vertical value is accepted exactly when it is one of top, center, bottom, and the accepted value reads back as the same text |
| Alignment.Make | lib/slideck/alignment.rb:60-62 | Alignment[] succeeds exactly when both values are valid, and then to_a gives back the two arguments; an invalid horizontal value is reported first (alignment.rb:97-102), an invalid vertical one only after a valid horizontal one |
| Alignment.FromValue | lib/slideck/alignment.rb:40-45 | a value that is not a String fails with NoMethodError for split; a String is parsed by Alignment.from |
| Alignment.From | lib/slideck/alignment.rb:40-45 | the first field of the split text is the horizontal value and the second the vertical one, the default when there is no second field; a text with no field fails on the empty horizontal value |
| Alignment.FromSingle | lib/slideck/alignment.rb:40-45 | a single field sets the horizontal value and the vertical value is the default |
| Alignment.FromPair | lib/slideck/alignment.rb:40-45 | two fields separated by any non-empty run of spaces and commas give the horizontal and the vertical value, whatever the default |
| Alignment.FromIgnoresRest | lib/slideck/alignment.rb:40-45 | fields after the second one are ignored |
| Alignment.FromSingleExamples | spec/unit/alignment_spec.rb:5-33 | "right" gives right/center, "right" with default "bottom" gives right/bottom, "unknown" fails on the horizontal value |
| Alignment.FromSeparatorExamples | spec/unit/alignment_spec.rb:35-54 | "right top", "right,top" and "right , top" all give right/top |
| Alignment.FromVerticalExample | spec/unit/alignment_spec.rb:13-19 | "center unknown" fails on the vertical value "unknown" |
| Alignment.MakeToA | lib/slideck/alignment.rb:97-102 | every alignment is rebuilt by Alignment[] from its own to_a |
| Alignment.EqualIffToA | lib/slideck/alignment.rb:117-137 | two alignments are equal (== and eql?) exactly when their to_a arrays are equal |
| Errors.Hierarchy | lib/slideck/errors.rb:7-22 | every error class is a StandardError; exactly Error, ReadError, InvalidArgumentError and InvalidMetadataKeyError are Slideck::Error; every error the model raises is a Slideck::Error except Ruby's own NoMethodError and the YAML library's errors |
| Errors.PluralizeKey | lib/slideck/errors.rb:57-59 | "key" for a count of exactly one and "keys" for every other count, zero included |
| Errors.Pluralize | lib/slideck/errors.rb:57-59 | the noun is left as it is for a count of one and gets an "s" for every other count |
| Errors.AvailableKeysText | lib/slideck/errors.rb:38-43 | the allowed keys are listed inspected and comma-joined, ":align, :footer, :margin, :pager, :symbols, :theme" |
| Errors.UnknownKeyMessages | lib/slideck/errors.rb:23-24 | the unknown-key message names the keys comma-joined, says "key" for one and "keys" for two, and ends with the list of available keys |
| Margin.ValidateSide | lib/slideck/margin.rb:338-343 | a side is accepted exactly when it is an Integer and keeps its value; anything else is an InvalidArgumentError naming the side and the value |
| Margin.New | lib/slideck/margin.rb:253-260 | a margin is built exactly when all four sides are Integers, and its to_a is then the four sides in order; otherwise the first non-integer side in the order top, right, bottom, left is the one reported |
| Margin.InvalidSides | lib/slideck/margin.rb:118-124 | the hash's keys minus SIDE_NAMES: empty exactly when every key is a side name, and holding exactly the keys that are not, in the order of the hash |
| Margin.InvalidSidesAppend | lib/slideck/margin.rb:118-124 | Array#- keeps the receiver's order: the invalid sides of two key lists one after the other are those of the first followed by those of the second |
| Margin.InvalidSidesOne | lib/slideck/margin.rb:118-124 | a single key is invalid, and kept, exactly when it is not a side name |
| Margin.SideValue | lib/slideck/margin.rb:118-124 | a side missing from the hash, or given as nil, counts as 0 |
| Margin.FromHash | lib/slideck/margin.rb:118-124 | a hash with any key that is not a side name fails and reports all such keys (margin.rb:193-198) |
| Margin.IntegerRunEnd | lib/slideck/margin.rb:13 | finds the end of the longest run of digits, commas and spaces from a position, the character class of INTEGERS_ONLY_PATTERN |
| Margin.IntegerFields | lib/slideck/margin.rb:134-142 | each field of the split string becomes the Integer that String#to_i reads from it, in order |
| Margin.ConvertToArray | lib/slideck/margin.rb:134-142 | an Integer or Float is a one-element array, an Array is its own items, a String of integers is its split fields read by to_i one by one, and anything else, a String with other characters included, is nil |
| Margin.FromArray | lib/slideck/margin.rb:95-103 | one to four values are spread by the CSS rule: a missing right side copies the top, a missing bottom the top, a missing left the right; any other count fails with the arity error carrying the values (margin.rb:174-180) |
| Margin.From | lib/slideck/margin.rb:54-62 | a value that is not a hash and that convert_to_array rejects is reported as an invalid margin (margin.rb:155-161) |
| Margin.FromInteger | spec/unit/margin_spec.rb:5-9 | an integer gives all four sides |
| Margin.FromArraySpread | lib/slideck/margin.rb:95-103 | one to four integers are spread over top, right, bottom and left: one for all, two as vertical/horizontal, three as top/horizontal/bottom, four as given |
| Margin.FromArrayArity | spec/unit/margin_spec.rb:35-52 | an empty array, or one of more than four values, fails with the arity error carrying the values (margin.rb:174-180) |
| Margin.FromHashSides | lib/slideck/margin.rb:118-124 | a hash of side names and integers gives each side from its key, 0 for a side that is missing |
| Margin.FromHashExample | spec/unit/margin_spec.rb:60-64 | {right: 2, left: 4} gives the margin 0, 2, 0, 4 |
| Margin.FromHashUnknown | spec/unit/margin_spec.rb:74-80 | {invalid: 1, unknown: 2} fails and reports both names in order |
| Margin.UnknownSidesMessages | lib/slideck/margin.rb:193-198 | the unknown-name message says "name" for one name and "names" for two, and lists the inspected names comma-joined |
| Margin.FromStringOfSides | lib/slideck/margin.rb:134-142 | a margin with non-negative sides written as integers separated by spaces reads back as the same margin |
| Margin.FromStringExample | spec/unit/margin_spec.rb:82-86 | "1 2" gives the margin 1, 2, 1, 2 |
| Margin.FromMixedStringExample | spec/unit/margin_spec.rb:88-92 | "1,2 ,  3" gives the margin 1, 2, 3, 2 |
| Margin.FromInvalidStringExample | spec/unit/margin_spec.rb:100-108 | "5%" is an invalid margin |
| Margin.FromFloatExample | spec/unit/margin_spec.rb:133-138 | Margin[1.0, 2, 3, 4] fails on the top side with "top margin needs to be an integer, got: 1.0" |
| Margin.EqualIffToA | lib/slideck/margin.rb:275-297 | two margins are equal (== and eql?) exactly when their to_a arrays are equal |
| Margin.FromToA | lib/slideck/margin.rb:320-322 | every margin is rebuilt by Margin.from from the four integers of its to_a |
| Parser.SeparatorLength | lib/slideck/parser.rb:21 | the scanner's match of SLIDE_SEPARATOR at a position: an optional newline, a maximal run of three or more dashes, then a newline; a match always ends on that newline, and there is none exactly when no such dash line starts there |
| Parser.Chunks | lib/slideck/parser.rb:83-95 | the scanner always ends with a slide under way, so there is at least one chunk |
| Parser.AddSlide | lib/slideck/parser.rb:108-112 | an empty slide is never added: the list comes back as it was for an empty slide and extended by exactly that slide otherwise |
| Parser.SplitIntoSlides | lib/slideck/parser.rb:81-96 | the scanner loop returns exactly the slides of the text: the non-empty texts between separators, in order, the last one chomped |
| Parser.SlidesOf | lib/slideck/parser.rb:108-112 | no slide of any text is empty, as add_slide drops every empty one |
| Parser.LexCovers | lib/slideck/parser.rb:84-93 | the scanner consumes the whole text in order: its tokens joined give the text back |
| Parser.SplitReassembles | lib/slideck/parser.rb:81-96 | splitting loses nothing: the slide texts with the separators put back between them are the whole text |
| Parser.LeadingSeparator | spec/unit/parser_spec.rb:146-177 | a separator line before the first slide changes nothing: the deck wrapped in separators has the same slides |
| Parser.TwoSlides | spec/unit/parser_spec.rb:20-40 | two one-line slides around a separator line are the two lines, without their newlines |
| Parser.IsEmpty | lib/slideck/parser.rb:68 | empty? answers for strings, symbols, arrays and hashes, true exactly for the empty one of each; for any other value loaded from YAML (nil, a number, true or false) it fails with NoMethodError |
| Parser.SymbolMetadataRead | lib/slideck/parser.rb:63-69 | metadata that loads as a non-empty Symbol (`--- :foo`, with Symbol permitted) is not empty, so it is the deck's metadata and the first slide is dropped |
| Parser.Parse | lib/slideck/parser.rb:63-69 | with METADATA_PATTERN as written (parser.rb:13, 135-137): no slides give empty metadata and no slides; a first slide whose first line does not match leaves the metadata empty and every slide kept (parser.rb:121-125); otherwise the first slide is parsed as metadata, and it is dropped from the slides unless that metadata is empty; errors of the metadata parser and of empty? are passed on |
| Parser.ParseCorrected | lib/slideck/parser.rb:63-69 | the same parse with the pattern that also allows a leading colon, so that a first line with a symbol key is read as metadata |
| Parser.EmptyContent | spec/unit/parser_spec.rb:9-18 | empty content has no slides and empty metadata |
| Parser.ColonFirstRejected | lib/slideck/parser.rb:13 | METADATA_PATTERN never matches a first line that starts with a colon |
| Parser.MetadataGivenAgrees | lib/slideck/parser.rb:135-137 | the pattern as written and the pattern that allows a leading colon agree on every slide that does not start with a colon |
| Parser.SymbolKeyMetadata | spec/unit/parser_spec.rb:96-114 | a deck whose first line is ":align: center" is not seen as metadata by the pattern as written, and is by the corrected pattern |
| Parser.ParseAgrees | lib/slideck/parser.rb:63-69 | the parse as written and the corrected parse give the same deck whenever the first slide does not start with a colon |
| Parser.SymbolKeyDeck | spec/unit/parser_spec.rb:96-114 | a deck whose first slide starts with ":align: center" keeps every slide and has empty metadata as written, while the corrected parse reads that slide as metadata |
| MetadataParser.ParseMethod | lib/slideck/metadata_parser.rb:82-84 | safe_load is called exactly when the YAML library responds to it, load otherwise |
| MetadataParser.Arguments | lib/slideck/metadata_parser.rb:106-110 | the permitted classes are passed positionally exactly when the method's signature has whitelist_classes, and nothing positional otherwise |
| MetadataParser.Options | lib/slideck/metadata_parser.rb:120-130 | the options hold permitted_classes exactly when the signature accepts it and symbolize_names exactly when the signature accepts it, each with the parser's setting, and no other key |
| MetadataParser.Call | lib/slideck/metadata_parser.rb:63-68 | the library is sent the selected method with the content, the positional arguments and the options chosen from that method's parameter names |
| MetadataParser.Parse | lib/slideck/metadata_parser.rb:63-73 | when the library symbolized the names itself (symbolize_names among its options, metadata_parser.rb:140-142), or the setting is falsy, the loaded value comes back as it is; otherwise its keys are symbolized |
| MetadataParser.ToSym | lib/slideck/metadata_parser.rb:170 | a String key becomes the Symbol of the same name, a Symbol stays, and any other key fails with NoMethodError for to_sym |
| MetadataParser.SymbolizeKeys | lib/slideck/metadata_parser.rb:152-158 | symbolizing succeeds exactly when every hash key at every depth responds to to_sym, and then every hash key at every depth is a Symbol; values that are neither a hash nor an array come back unchanged and an array keeps its length; in a symbolized hash the symbol of each key looks up the symbolized value of the last entry whose key has that symbol, and no other symbol is a key |
| MetadataParser.SymbolizeItems | lib/slideck/metadata_parser.rb:182-186 | an array's items are symbolized one by one: it succeeds exactly when each item can be, and then item i of the result is item i symbolized |
| MetadataParser.SymbolizePairs | lib/slideck/metadata_parser.rb:168-172 | a hash is rebuilt entry by entry: it succeeds exactly when every key responds to to_sym and every value can be symbolized; the result's keys at every depth are Symbols, the symbol of a key looks up the symbolized value of the last entry with a key of that symbol, and a symbol of no key looks up what the accumulator held |
| MetadataParser.SymbolizePairsKeys | lib/slideck/metadata_parser.rb:168-172 | the fold's Hash#[]= keeps the key order: the result's keys are the accumulator's keys followed by each symbol not seen before, at its first occurrence |
| MetadataParser.SymbolizeKeysOrder | lib/slideck/metadata_parser.rb:152-172 | a symbolized hash's keys are the symbols of its keys at their first occurrence, in the order of the input; a later duplicate changes the value, not the place |
| MetadataParser.SymbolizeIdempotent | lib/slideck/metadata_parser.rb:152-186 | symbolizing is idempotent: a value whose hash keys at every depth are already distinct Symbols comes back unchanged |
| MetadataParser.SymbolizeExample | spec/unit/metadata_parser_spec.rb:41-58 | the nested example with string keys gets Symbol keys at every depth, its values kept |
| MetadataParser.SymbolizeIntegerKey | lib/slideck/metadata_parser.rb:168-172 | an Integer key raises NoMethodError, as Integer has no to_sym |
| MetadataParser.SymbolizeCollision | lib/slideck/metadata_parser.rb:168-172 | {"a" => 1, a: 2} symbolizes to a hash in which :a looks up 2: a later key with the same symbol wins |
| MetadataParser.SymbolizeOrderExample | lib/slideck/metadata_parser.rb:168-172 | {"b" => 1, a: 2, b: 3} symbolizes to a hash whose keys are :b then :a: a repeated symbol keeps the place of its first key |
| MetadataParser.CallExamples | spec/unit/metadata_parser_spec.rb:60-85 | a whitelist_classes signature gets the permitted classes as a positional argument to safe_load; a permitted_classes signature gets them as a keyword option to load |
| MetadataConverter.OtherEntries | lib/slideck/metadata_converter.rb:86-91 | the entries of a footer or pager hash other than :align and :text are kept: exactly those keys, each with its value in the hash |
| MetadataConverter.WrapWithTextKey | lib/slideck/metadata_converter.rb:72-74 | a hash is kept as given; any other value becomes a hash whose only key is :text, holding the value, or the empty string when the value is nil or false |
| MetadataConverter.ConvertAlignKey | lib/slideck/metadata_converter.rb:86-91 | a hash without :align keeps its text and other entries and gets no alignment; with :align, that value is converted by Alignment.from with the given default, the other entries are kept, and a failure of Alignment.from is raised |
| MetadataConverter.ConvertFor | lib/slideck/metadata_converter.rb:53-62 | :align converts exactly when Alignment.from with default center does, to that alignment or with its error; :margin likewise by Margin.from; :footer and :pager by wrapping the value under :text and converting its :align with default bottom, to that section or with its error; :symbols and :theme always give nil; every value that converts has the type its key requires |
| MetadataConverter.SectionHash | lib/slideck/metadata_converter.rb:86-91 | convert_for (metadata_converter.rb:59-60) on a footer or pager hash: without :align it is a section with no alignment, the hash's :text and its other entries; with :align it converts exactly when that value is an alignment text with default bottom, and otherwise raises Alignment's error |
| MetadataConverter.ConvertFrom | lib/slideck/metadata_converter.rb:35-39 | converting entry by entry into a well-typed hash keeps it well typed, and without repeated keys when it had none |
| MetadataConverter.Converted | lib/slideck/metadata_converter.rb:35-39 | the converted entries of a custom hash that converts are its keys, one per entry, in the same order |
| MetadataConverter.Convert | lib/slideck/metadata_converter.rb:35-39 | the custom hash converts exactly when every entry does, and the result is well typed and holds each key once |
| MetadataConverter.ConvertFailure | lib/slideck/metadata_converter.rb:35-39 | a custom hash that does not convert raises the error of its first entry that fails |
| MetadataConverter.ConvertEntries | lib/slideck/metadata_converter.rb:35-39 | a custom hash with distinct keys that converts gives the same keys in the same order, each with its own value converted |
| MetadataConverter.AlignDefaultsToCenter | lib/slideck/metadata_converter.rb:55-56 | :align "right" becomes the alignment right/center |
| MetadataConverter.FalsyTextBecomesEmpty | spec/unit/metadata_converter_spec.rb:14-20 | a :footer or :pager given as nil or false becomes a section whose text is empty |
| MetadataConverter.TextBecomesSection | spec/unit/metadata_converter_spec.rb:22-28 | a :footer or :pager given as a string becomes a section with that text and no alignment |
| MetadataConverter.SectionAlignDefaultsToBottom | spec/unit/metadata_converter_spec.rb:30-41 | the :align of a :footer or :pager hash is converted with the default vertical alignment bottom |
| MetadataConverter.SymbolsAndThemeNil | lib/slideck/metadata_converter.rb:53-62 | :symbols and :theme have no branch in convert_for, so any value given for them converts to nil |
| MetadataValues.KeyNamesInOrder | lib/slideck/metadata.rb:63-88 | the metadata keys are align, footer, margin, pager, symbols and theme, in the order define_meta registers them (metadata.rb:54-57), the order the unknown-key message lists them |
| MetadataValues.KeyOf | lib/slideck/metadata.rb:38-43 | a raw hash key stands for a metadata key exactly when it is the Symbol of that key's name; strings and other symbols are not metadata keys |
| MetadataValues.Get | lib/slideck/metadata.rb:54-55 | the accessor gives nil for a key the hash lacks and the stored value otherwise |
| MetadataValues.Put | lib/slideck/metadata_converter.rb:36-38 | Hash#[]= makes the key read back the new value and leaves every other key's value as it was |
| MetadataValues.PutKeys | lib/slideck/metadata_converter.rb:36-38 | Hash#[]= keeps the order of the keys: an existing key keeps its place and a new key is appended at the end |
| MetadataValues.PutHasKey | lib/slideck/metadata_converter.rb:36-38 | after Hash#[]= a key is present exactly when it is the stored key or was present before |
| MetadataValues.PutDistinct | lib/slideck/metadata_converter.rb:36-38 | Hash#[]= never makes a key occur twice |
| MetadataDefaults.StandardShape | lib/slideck/metadata_defaults.rb:49-56 | the defaults are the four keys align, footer, margin and pager, in that order, each once and with a value of its key's type |
| MetadataDefaults.DefaultsConstructed | lib/slideck/metadata_defaults.rb:49-80 | the default alignments left/top, left/bottom and right/bottom and the margin 0, 0, 0, 0 are what Alignment[] and Margin[] build from those arguments |
| MetadataDefaults.StandardGet | lib/slideck/metadata_defaults.rb:49-80 | the defaults hold align left/top, a footer aligned left/bottom with empty text, margin 0 on every side and a pager aligned right/bottom with the text "%<page>d / %<total>d", and hold no symbols or theme |
| MetadataDefaults.MergeSection | lib/slideck/metadata_defaults.rb:38 | merging a custom section into a default one keeps every key of either, and the custom value wins for each key the custom section has |
| MetadataDefaults.MergeValue | lib/slideck/metadata_defaults.rb:37-39 | the merge block: a default that is not a hash is replaced by the custom value, a hash default is merged with the custom hash |
| MetadataDefaults.MergedEntry | lib/slideck/metadata_defaults.rb:37-39 | the block's result for a custom value has the type its key requires, whether or not the defaults hold the key |
| MetadataDefaults.MergeWith | lib/slideck/metadata_defaults.rb:36-40 | Hash#merge with the block keeps the result well typed and without repeated keys |
| MetadataDefaults.Merge | lib/slideck/metadata_defaults.rb:36-40 | the merged metadata is well typed; a slide's metadata, merged into {}, is its custom hash unchanged (metadata_wrapper.rb:44) |
| MetadataDefaults.MergeWithGet | lib/slideck/metadata_defaults.rb:36-40 | a key is in the merge exactly when it is in either hash, and its value is the default's when the custom hash lacks it and the block's result otherwise |
| MetadataDefaults.StandardMergeKeys | lib/slideck/metadata_defaults.rb:36-56 | the deck's metadata holds exactly the four default keys and the custom ones |
| MetadataDefaults.StandardMergeReplaces | lib/slideck/metadata_defaults.rb:37-39 | a custom :align or :margin replaces the default, and without one the default stays |
| MetadataDefaults.StandardReplaced | lib/slideck/metadata_defaults.rb:37-39 | for :align and :margin the merged value is the custom one when given and the default otherwise |
| MetadataDefaults.StandardMergeSections | lib/slideck/metadata_defaults.rb:37-39 | a custom :footer or :pager is merged key by key into the default section, so a custom text keeps the default alignment and a custom alignment keeps the default text; without one the default section stays |
| MetadataDefaults.StandardMergeOthers | lib/slideck/metadata_defaults.rb:36-40 | :symbols and :theme have no default and are taken as given |
| MetadataDefaults.MergeNothing | lib/slideck/metadata_defaults.rb:36-56 | merging no custom metadata gives exactly the defaults |
| Metadata.UnknownKeys | lib/slideck/metadata.rb:38-43 | custom keys minus the metadata keys: empty exactly when every custom key is a metadata key, and holding exactly the keys that are not, in the order of the custom hash |
| Metadata.UnknownKeysAppend | lib/slideck/metadata.rb:38-43 | Array#- keeps the receiver's order: the unknown keys of two key lists one after the other are those of the first followed by those of the second |
| Metadata.UnknownKeysOne | lib/slideck/metadata.rb:38-43 | a single key is unknown, and kept, exactly when it is not a metadata key |
| Metadata.Typed | lib/slideck/metadata.rb:22-26 | the typed entries stand one for one and in order for the custom ones: each custom key is the Symbol of its typed key's name and each value is the same |
| Metadata.KnownKeysTyped | lib/slideck/metadata.rb:22-26 | once no key is unknown (metadata.rb:38-43), every custom key is a metadata key and the typed entries are the custom ones with their keys read as metadata keys |
| Metadata.From | lib/slideck/metadata.rb:22-26 | a custom value that is not a hash fails with NoMethodError for keys; unknown keys raise InvalidMetadataKeyError with the allowed keys and the unknown ones; otherwise the result is the metadata of the custom hash converted (metadata_converter.rb:36-38) and merged with the defaults, or the first error the conversion raises, and the metadata built is well typed |
| Metadata.EmptyDeckMetadata | lib/slideck/metadata.rb:22-26 | an empty custom hash gives exactly the default metadata, and with no defaults an empty metadata |
| Metadata.DeckMetadataShape | lib/slideck/metadata.rb:22-26 | the deck's metadata, merged with the defaults, always holds every default key, and its footer and pager sections always have an alignment and a text |
| Metadata.SlideMetadataKeys | lib/slideck/metadata_wrapper.rb:44 | a slide's metadata holds only the converted entries it was given |
| Metadata.UnknownKeyExample | lib/slideck/metadata.rb:38-43 | an unknown symbol key and a String key "align" are both reported as unknown keys |
| Metadata.HashAsWritten | lib/slideck/metadata.rb:149-151 | hash as written depends on the values under the receiver's own keys only, one value per key it holds |
| Metadata.EqualAsWrittenAsymmetric | lib/slideck/metadata.rb:115-139 | == and eql? as written compare only the receiver's own keys: slide metadata with no keys equals slide metadata with an :align, not the other way round, and the two hash differently |
| Metadata.HashValues | lib/slideck/metadata.rb:149-151 | the corrected hash lists the value of every metadata key, in definition order |
| Metadata.EqualEquivalence | lib/slideck/metadata.rb:115-120 | the corrected == is reflexive, symmetric and transitive |
| Metadata.EqualIffHash | lib/slideck/metadata.rb:115-151 | under the corrected definitions two metadata are equal exactly when their hashes are equal |
| Metadata.EqualRefinesAsWritten | lib/slideck/metadata.rb:115-120 | metadata equal under the corrected == are equal under the written == in both directions |
| MetadataWrapper.WrapSlides | lib/slideck/metadata_wrapper.rb:41-46 | the slides' metadata is built in order, each merged into {}: the result has one slide per input slide, with its content passed through and its own metadata, exactly when every slide's metadata builds; otherwise the first slide that fails raises its error |
| MetadataWrapper.Wrap | lib/slideck/metadata_wrapper.rb:38-48 | the deck's metadata is built first, merged with the defaults, and its error comes before any slide's; then the slides are wrapped |
| MetadataWrapper.WrapShape | lib/slideck/metadata_wrapper.rb:38-48 | a wrapped deck's metadata has every default key with footer and pager sections that have an alignment and a text, and each slide keeps its content, in order |
| MetadataWrapper.EmptyDeck | spec/unit/metadata_wrapper_spec.rb:18-27 | an empty metadata hash with no slides wraps to the default metadata and no slides |
| Renderer.Resize | lib/slideck/renderer.rb:55-57 | a resized renderer has the new width and height and keeps the converter and the sanitiser |
| Renderer.Clear | lib/slideck/renderer.rb:94-96 | clearing writes the clear-screen escape and then moves the cursor to the origin |
| Renderer.Pick | lib/slideck/renderer.rb:198-201 | a value the slide sets (not nil) wins; without a slide, or when the slide's value is nil, the deck's value is used |
| Renderer.PickShape | lib/slideck/renderer.rb:180-201 | whatever a well-typed slide sets, the picked :align is an alignment, the picked :margin a margin and the picked :footer and :pager sections, because the deck's metadata holds every default |
| Renderer.PickedAlignment | lib/slideck/renderer.rb:180-201 | the content's alignment is the slide's when the slide sets one and the deck's otherwise |
| Renderer.PickedMargin | lib/slideck/renderer.rb:180-201 | the margin is the slide's when the slide sets one and the deck's otherwise |
| Renderer.PickedSection | lib/slideck/renderer.rb:198-201 | the footer or pager section is the slide's when the slide sets one and the deck's otherwise |
| Renderer.BottomAlignment | lib/slideck/renderer.rb:133 | a footer (and a pager, renderer.rb:159) is aligned as its picked section says, and when that section has no alignment, as the deck's section says, also when the section is the slide's |
| Renderer.Half | lib/slideck/renderer.rb:242 | Integer#/ by 2 rounds toward minus infinity: twice the half is the value or one less |
| Renderer.LeftColumn | lib/slideck/renderer.rb:237-246 | a left-aligned section starts at the left margin, a right-aligned one ends at the right margin, and a centred one leaves as many spare columns on the right as on the left, or one more |
| Renderer.TopRow | lib/slideck/renderer.rb:260-269 | a top-aligned section starts at the top margin, a bottom-aligned one ends at the bottom margin, and a centred one leaves as many spare rows below as above, or one more |
| Renderer.MaxLength | lib/slideck/renderer.rb:298-300 | the maximum is nil exactly for no lines; otherwise it is the visible length of some line and no line is longer |
| Renderer.PlacedAt | lib/slideck/renderer.rb:220-222 | line i of a section is written right after a move to the section's column, i rows below its top row |
| Renderer.PlacedWritesLines | lib/slideck/renderer.rb:220-222 | the placed lines write exactly the lines, in order, and nothing else |
| Renderer.RenderSection | lib/slideck/renderer.rb:215-223 | a section raises exactly when it has no lines and is not left-aligned (the nil maximum in arithmetic); otherwise every line is placed at the column of the alignment for the longest line, on consecutive rows from the alignment's top row |
| Renderer.SectionWritesText | lib/slideck/renderer.rb:215-223 | a rendered section writes the converted text unchanged, newlines included |
| Renderer.FormatPlain | lib/slideck/renderer.rb:162 | a pager template without % directives is the text itself |
| Renderer.Format | lib/slideck/renderer.rb:162 | format fails only on a directive it does not support, which starts with % and is not %% |
| Renderer.FormatPage | lib/slideck/renderer.rb:162 | %<page>d is replaced by the current slide number, and the rest of the template formatted after it |
| Renderer.FormatTotal | lib/slideck/renderer.rb:162 | %<total>d is replaced by the number of slides, and the rest of the template formatted after it |
| Renderer.DefaultPagerText | lib/slideck/renderer.rb:162 | the default pager template "%<page>d / %<total>d" reads "page / total" |
| Renderer.SectionText | lib/slideck/renderer.rb:131 | an empty footer or pager text, the empty symbol included, means the section is not rendered, a non-empty string is rendered, and a section without :text or with a nil one raises (nil has no empty?, renderer.rb:157) |
| Renderer.RenderContent | lib/slideck/renderer.rb:110-117 | the content is converted at the width the picked margin leaves and laid out, not chomped, at the picked alignment and margin, and a rendered content writes exactly that converted text |
| Renderer.RenderBottom | lib/slideck/renderer.rb:132-137 | a footer or pager text is converted, chomped and laid out at the section's alignment or else the deck's, with the picked margin, and a rendered one writes exactly the chomped text |
| Renderer.RenderFooter | lib/slideck/renderer.rb:129-137 | a picked footer with empty text renders nothing, one without text raises, and one with a non-empty string renders that text at the bottom |
| Renderer.RenderPager | lib/slideck/renderer.rb:155-166 | a picked pager with empty text renders nothing, one without text raises, a template format rejects is that failure, and otherwise the formatted text is rendered at the bottom |
| Renderer.DeckEmptyTextSuppresses | lib/slideck/renderer.rb:129-166 | when the slide sets no footer or pager and the deck's has an empty text, that part renders nothing |
| Renderer.SlideSectionTakesDeckAlign | lib/slideck/renderer.rb:133 | a slide's footer or pager without :align is placed at the deck's section alignment |
| Renderer.Render | lib/slideck/renderer.rb:76-84 | rendering succeeds exactly when the content (given a slide), the footer and the pager all do, and writes them in that order |
| Renderer.Assemble | lib/slideck/renderer.rb:78-83 | the three parts are joined in order; the first that raises, content then footer then pager, decides the error |
| Renderer.SlideEmptyTextSuppresses | lib/slideck/renderer.rb:129-166 | a footer or pager the slide sets to an empty text is not rendered, whatever the deck sets |
| Renderer.OneLineSection | lib/slideck/renderer.rb:215-223 | a one-line text is one move to the alignment's column and row, then the line |
| Renderer.ContentLine | lib/slideck/renderer.rb:110-117 | a slide's one-line content is placed at the deck's alignment, converted for the full screen width when the margin is zero |
| Renderer.NoFooter | lib/slideck/renderer.rb:129-131 | the default footer, with its empty text, is not rendered |
| Renderer.ContentAtAlignment | spec/unit/renderer_spec.rb:70-93 | "content" on a 20 by 8 screen goes to row 1, 4 or 8 and column 1, 7 or 13 (1-based) for each of the nine alignments, followed by the pager "1 / 4" at row 8, column 16 |
| Renderer.FirstOfFourChrome | spec/unit/renderer_spec.rb:86-91 | on the default screen slide 1 of 4 has no footer and the pager "1 / 4" in the bottom right corner |
| Renderer.RenderOfParts | lib/slideck/renderer.rb:76-84 | a slide without a footer renders as its content followed by the pager |
| Renderer.RenderOfPager | lib/slideck/renderer.rb:76-84 | with no slide and no footer the render is the pager alone |
| Renderer.PageNumberOnly | spec/unit/renderer_spec.rb:20-29 | the default deck with no slide shows only "0 / 0" at row 8, column 16 |
| Presenter.RubyAt | lib/slideck/presenter.rb:110-111 | Array#[] gives the element at a non-negative index inside the array, counts from the end for a negative one, and is nil exactly when the index is out of range either way |
| Presenter.WentToSlide | lib/slideck/presenter.rb:208-211 | go_to_slide reads the buffered keys, joined, as a number counting from 1, moves the tracker there by go_to, and empties the buffer |
| Presenter.Quit | lib/slideck/presenter.rb:179-183 | keyctrl_x and keyescape clear the screen and stop, leaving the tracker and the buffer as they were |
| Presenter.Pressed | lib/slideck/presenter.rb:140-150 | "n" and "l" go forward, "p" and "h" back, "^" to the first slide, "$" to the last, "g" to the buffered slide number, a value with a digit is buffered, "q" clears the screen and stops, and any other value changes nothing; only "g" and digits touch the buffer, the total never changes and a valid position stays valid |
| Presenter.Named | lib/slideck/presenter.rb:157-183 | keyright, keyspace and keypage_down go forward; keyleft, keybackspace and keypage_up go back; keyctrl_x and keyescape clear the screen and stop; none touches the buffer |
| Presenter.KeyStep | lib/slideck/presenter.rb:140-183 | one key runs the handler of its name, then keypress; the presentation stops exactly when the key is a quitting one, only a quitting key prints, and the tracker keeps its total and a valid position |
| Presenter.Handled | lib/slideck/presenter.rb:140-183 | a key changes only the tracker, the buffer and the stop flag, keeps the tracker in step with the slides, and prints only when it quits |
| Presenter.Reloaded | lib/slideck/presenter.rb:45-50 | reload takes the new slides and metadata and resizes the tracker to the number of slides, keeping its position when the position still names a slide; the buffer, the stop flag and the output stay |
| Presenter.Frame | lib/slideck/presenter.rb:90-112 | one render prints the clear and then the renderer's output for the current slide, or raises the renderer's error after the clear; nothing else changes |
| Presenter.Loop | lib/slideck/presenter.rb:64-67 | the loop never changes the slides, the metadata, the renderer or the tracker's total, keeps the tracker in step with the slides, and only adds to the output |
| Presenter.LoopStopped | lib/slideck/presenter.rb:64 | a stopped presenter's loop renders nothing more and changes nothing |
| Presenter.Presenter.constructor | lib/slideck/presenter.rb:22-30 | a new presenter is not stopped, has an empty buffer and has printed nothing |
| Presenter.Presenter.Reload | lib/slideck/presenter.rb:45-50 | the fields afterwards are those Reloaded gives |
| Presenter.Presenter.Stop | lib/slideck/presenter.rb:80-83 | the stop flag is set and nothing else changes |
| Presenter.Presenter.ClearScreen | lib/slideck/presenter.rb:100-102 | the renderer's clear is printed and nothing else changes |
| Presenter.Presenter.HideCursor | lib/slideck/presenter.rb:119-121 | the hide-cursor escape is printed and nothing else changes |
| Presenter.Presenter.ShowCursor | lib/slideck/presenter.rb:128-130 | the show-cursor escape is printed and nothing else changes |
| Presenter.Presenter.Render | lib/slideck/presenter.rb:90-93 | the fields afterwards are those Frame gives for the current slide |
| Presenter.Presenter.PrintSlide | lib/slideck/presenter.rb:109-112 | the current slide, or nil past the end, is rendered with page current + 1 of the total and printed; a render error is returned and prints nothing |
| Presenter.Presenter.KeyRight | lib/slideck/presenter.rb:157-161 | the tracker moves on by Tracker#next and nothing else changes |
| Presenter.Presenter.KeyLeft | lib/slideck/presenter.rb:168-172 | the tracker moves back by Tracker#previous and nothing else changes |
| Presenter.Presenter.KeyCtrlX | lib/slideck/presenter.rb:179-183 | the clear is printed and the stop flag set, as Quit states |
| Presenter.Presenter.GoToFirst | lib/slideck/presenter.rb:190-192 | the tracker goes to the first slide and nothing else changes |
| Presenter.Presenter.GoToLast | lib/slideck/presenter.rb:199-201 | the tracker goes to the last slide and nothing else changes |
| Presenter.Presenter.GoToSlide | lib/slideck/presenter.rb:208-211 | the tracker and buffer afterwards are those WentToSlide gives |
| Presenter.Presenter.AddToBuffer | lib/slideck/presenter.rb:221-223 | the key is appended to the buffer and nothing else changes |
| Presenter.Presenter.Keypress | lib/slideck/presenter.rb:140-150 | the fields afterwards are those Pressed gives |
| Presenter.Presenter.HandleEvent | lib/slideck/presenter.rb:140-183 | the fields afterwards are those Handled gives |
| Presenter.Presenter.Start | lib/slideck/presenter.rb:60-70 | the fields afterwards, and the render error that ended the loop if any, are those of the session: hide the cursor, loop over the keys, show the cursor |
| Presenter.SessionBrackets | lib/slideck/presenter.rb:60-70 | start prints the hide-cursor escape first and the show-cursor escape last, whatever the keys and even when a render raises |
| Presenter.LoopIgnoresAfterQuit | lib/slideck/presenter.rb:64-67 | no key after the first quitting key is read |
| Presenter.LoopFollowsKeys | lib/slideck/presenter.rb:64-67 | the renders between the keys do not change where the keys lead: without a failed render, the loop ends with the tracker and buffer the keys alone give |
| Presenter.QuitAtOnce | spec/unit/presenter_spec.rb:52-74 | a first "q" gives exactly: hide cursor, clear, the current slide, clear, show cursor; and the presentation is stopped |
| Presenter.TypingDigits | lib/slideck/presenter.rb:147 | typed digits only fill the buffer, one key value per digit |
| Presenter.GoToTyped | lib/slideck/presenter.rb:208-223 | typing a slide number and then "g" goes to that slide, counting from 1, when the deck has it, and empties the buffer |
| Presenter.GoWithoutNumber | lib/slideck/presenter.rb:208-211 | "g" with nothing typed asks for slide 0, which is no slide, and changes nothing |
| Presenter.ThirteenOfFifteen | spec/unit/presenter_spec.rb:197-228 | on fifteen slides, "1", "3", "g" shows slide 13 |

## Left out

- lib/slideck/runner.rb, loader.rb, cli.rb, converter.rb and transformer.rb, and lib/slideck.rb, are not part of this model. They are object wiring, the file watcher thread, file I/O, option parsing and a forward to TTY::Markdown.
- The markdown converter and `Strings::ANSI.sanitize` are functions given to the renderer. `TTY::Cursor` escapes are abstract actions: a move to a 0-based (column, row), clear-screen, hide and show.
- Printing to the output stream is the presenter's `output` field, a sequence of printed actions.
- `TTY::Reader` is modelled as a given sequence of key events. The loop also ends when the events run out, where the Ruby blocks in `read_keypress`.
- Signal and WINCH handling, Ctrl-C and the interrupt exit are left out. So is the reload on "r"/Ctrl-L, which the command help lists but `keypress` does not handle.
- YAML's `safe_load`/`load` are a given function from text to a value tree. `Method#parameters` reflection is a given list of parameter names.
- `Kernel#format` in the pager supports only `%<page>d`, `%<page>s`, `%<total>d`, `%<total>s` and `%%`. Any other directive is the `UnsupportedFormat` failure rather than Ruby's full format language.
- lib/slideck/presenter.rb:47 calls `renderer.with_metadata`, which the renderer does not define, and `Renderer#render` takes the metadata as its first argument. The model therefore keeps the deck's metadata as a presenter field and passes it to every render.
- `Tracker#resize` is called at lib/slideck/presenter.rb:48 but lib/slideck/tracker.rb does not define it. It is modelled from the behaviour spec/unit/tracker_spec.rb:110-150 describes.
- As written, `:symbols` and `:theme` convert to nil because the `case` has no else branch. spec/unit/metadata_spec.rb:220-246 expects them passed through and defaulted. The model follows the code.
- The tests of the renderer, presenter, parser and defaults construct their objects with signatures the code does not have. Those tests contribute only the layout results and key sequences, and each is restated against the code's own signatures.
- spec/unit/metadata_defaults_spec.rb expects no `margin` default. lib/slideck/metadata_defaults.rb:49-56 has one, and the model keeps it.
- `render_section` with zero lines takes the maximum of no lengths, which is nil, and a center or right alignment then raises. The model reports this as the `NoLines` failure instead of naming Ruby's exception.
- A footer or pager hash with `:align` but no `:text`, or with a nil `:text`, makes `nil.empty?` raise, and the model reports it as the `NoText` failure. An empty string, array, hash or symbol is empty and suppresses the section, as `empty?` says. A non-empty text that is not a string is the `NotAString` failure rather than whatever `empty?` or the markdown converter does with it: an Integer raises `NoMethodError` for `empty?`, a Symbol or a collection reaches the converter.
- Ruby quotes a Symbol that is not a plain name (`:"a b"`, or `"a b": 1` as a hash key). The model writes such a symbol without the quotes in inspected values and messages.
- `Values.EscapeString` escapes the ASCII control characters the way `String#inspect` does (`\n`, `\t`, `\r`, `\f`, `\v`, `\b`, `\a`, `\e`, and `\u00XX` for the rest), but writes every character above U+007F as it is. Ruby consults its Unicode printability tables there and escapes some of them as `\u{...}`, and those tables are not modelled.
- lib/slideck/parser.rb:68 yields the slides as Strings, while lib/slideck/metadata_wrapper.rb:41-46 reads each slide as a hash with `slide[:content]` and `slide[:metadata]`. lib/slideck/transformer.rb:39 passes one to the other, so as written that chain raises TypeError (`String#[]` given a Symbol) on every deck with a slide. The model keeps the two contracts apart: `Parser.Parse` gives the slide Strings, and `MetadataWrapper.Wrap` takes each slide as a `RawSlide` of content and metadata, the form the wrapper and its tests expect. The transformer's composition is not modelled.
- `Renderer#initialize` and the cursor and sanitiser objects are not modelled beyond the width, height and the given functions.
- `Metadata.define_meta`'s class-load-time key registration is the fixed key list `MetadataValues.KeyNamesInOrder`.
- Object identity, freezing and `eql?`'s distinction from `==` are not modelled. Values compare structurally.

## Findings

| source | as written | input that shows it | evidently intended | confidence | as-written member | corrected member |
|---|---|---|---|---|---|---|
| lib/slideck/metadata.rb:115-120, 149-151 | `==` compares only the receiver's own keys, while `hash` lists the values under those keys | metadata from `{}` against metadata from `{align: "left"}`, both built with no defaults: `a == b` holds, `b == a` does not, and the hashes differ | equality compares every metadata key, so it is symmetric and equal objects hash alike | not executed | Metadata.EqualAsWrittenAsymmetric | Metadata.EqualIffHash |
| lib/slideck/parser.rb:13, 135-137 | `METADATA_PATTERN` `/^[^:]+:[^:]+$/` cannot match a line that starts with a colon | a deck whose first line is `:align: center` (spec/unit/parser_spec.rb:96-114) is parsed as a slide with no metadata | a symbol key `:align: value` is recognised as metadata, as the parser test expects | not executed | Parser.Parse, Parser.SymbolKeyDeck | Parser.ParseCorrected, Parser.ParseAgrees |
