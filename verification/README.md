# SVG arrow-icon classification in binki-google-photos-navigation

The user script `binki-google-photos-navigation.user.js` adds keyboard
navigation to the Google Photos viewer. The page's markup is not semantic,
so the script finds the viewer's previous and next buttons by the shape of
their SVG icons. It reads the `d` attribute of each candidate icon's path
and runs it through three pure stages:

1. `getPathCommands`, the tokenizer. It turns path data into
   `{command, args}` records.
   - A command starts with an optional letter; without one, the previous
     letter repeats.
   - Each letter takes a fixed number of numeral arguments matching
     `-?([0-9]*\.)?[0-9]+`.
   - Whitespace is the only separator.
2. `getPathAbsoluteCoordinates`, the evaluator. It runs the commands
   `h H l L m M z Z` against a cursor that starts at the origin and emits one
   absolute point per command.
3. `getPathArrowDirection`, the classifier. It splits the points into "mid"
   points, whose y lies in the closed band from a quarter to three quarters
   of the icon's height, and "extreme" points outside it.
   - It answers -1 (a left caret) when the mean x of the mid points is
     smaller than that of the extreme points.
   - It answers 1 (a right caret) when it is larger.
   - It answers 0 otherwise, or when either group is empty.

Finally, `navigate` clicks the first candidate whose verdict is the wanted
direction.

This project models these stages as pure Dafny functions over strings,
command lists and point lists, with exact real arithmetic.

Modules:
- `Wrappers`: `Option` and `Result`.
- `PathSyntax`: whitespace, letters, the numeral pattern, the longest
  numeral prefix, and a numeral's exact value.
- `PathCommands`: the tokenizer.
- `PathLayout`: the tokenizer read in reverse. A `Layout` says how one
  command is written: the whitespace in front of it, whether its letter is
  written or left to letter reuse, and the whitespace in front of each
  numeral. Any such writing of well-formed commands tokenizes back to those
  commands, and text that fails after them makes the whole call fail with
  its error.
- `ErrorExamples`: short path data on which the tokenizer throws, each
  derived from the general error lemmas.
- `PathCoordinates`: the evaluator.
- `Means`: sums, means, and the three-way comparison of two means.
- `ArrowDirection`: the classifier and its symmetry properties.
- `ArrowButtons`: the pick of the button to click.
- `SampleIcons` and `TestVectors`: the two icons from the script's
  self-test, and the proofs that the model gives the results the script
  asserts for them.

Errors are values of `PathCommands.PathError`. Each exception the script can
throw has a constructor:
- `ExpectedCommand`
- `UnsupportedCommand`
- `MissingArguments`
- `BadArgument`
- `UnhandledCommand`

`NonTerminating` stands for the one input shape on which the tokenizer
never returns. The current letter is `z`/`Z` and the next non-space
character is not a letter. One pass of the loop then consumes nothing, and
the loop repeats forever. `PathCommands.IterationStuck` proves that the
loop state is a fixed point in that case.

## Model

| member | source | states |
|---|---|---|
| PathSyntax.TrimStart | binki-google-photos-navigation.user.js:113 | the trimmed text starts with a non-space character and is empty exactly when the input is all whitespace |
| PathSyntax.TrimStartSplit | binki-google-photos-navigation.user.js:113 | the input is a run of whitespace followed by the trimmed text |
| PathSyntax.NumberPrefix | binki-google-photos-navigation.user.js:133 | the matched prefix, when non-empty, is a numeral of the form `-?([0-9]*\.)?[0-9]+` |
| PathSyntax.NumberPrefixLongest | binki-google-photos-navigation.user.js:133 | no longer prefix of the text is a numeral, so the match is the greedy one |
| PathSyntax.NumberPrefixOfNumeral | binki-google-photos-navigation.user.js:133-136 | a numeral followed by text that cannot continue it is matched exactly |
| PathSyntax.NumeralValue | binki-google-photos-navigation.user.js:155-158 | the value of a numeral is negative only with a leading minus, and never positive with one |
| PathSyntax.NumeralValueDigits | binki-google-photos-navigation.user.js:155-158 | a numeral is worth all its digits read as one integer, divided by ten per digit after the point, negated when signed |
| PathSyntax.IntegerNumeral | binki-google-photos-navigation.user.js:155-158 | a run of digits is a numeral whose value is its decimal integer value |
| PathSyntax.DecimalNumeral | binki-google-photos-navigation.user.js:155-158 | `ip.fp` is a numeral worth the integer part plus the fraction digits over the matching power of ten |
| PathSyntax.NegativeNumeral | binki-google-photos-navigation.user.js:155-158 | a leading minus negates the value |
| PathCommands.ArgCount | binki-google-photos-navigation.user.js:119-127 | the table covers exactly the twenty path letters, and gives 0 arguments exactly for `z`/`Z` |
| PathCommands.ReadArgs | binki-google-photos-navigation.user.js:128-137 | on success: exactly `n` numerals, some text consumed when `n > 0`; all-whitespace text fails with missing arguments; a position without a numeral fails with a bad argument |
| PathCommands.Iteration | binki-google-photos-navigation.user.js:113-141 | a pass yields a well-formed command; its letter is the one read, or else the current letter; "Expected command" exactly when there is neither; an unknown letter is unsupported |
| PathCommands.TokenizeFrom | binki-google-photos-navigation.user.js:108-144 | every emitted command is well formed; no commands exactly for all-whitespace data; "Expected command" exactly when the first non-space character is not a letter and no letter is current |
| PathCommands.Tokenize | binki-google-photos-navigation.user.js:108-144 | every command carries its letter's argument count of numerals; whitespace-only data yields no commands |
| PathCommands.IterationStuck | binki-google-photos-navigation.user.js:111-141 | when a pass consumes nothing, the next pass sees the same data and letter and does the same again, so the loop never exits |
| PathCommands.ExpectedCommandIff | binki-google-photos-navigation.user.js:115-118 | tokenizing fails with "Expected command" exactly when the first non-space character is not a letter |
| PathCommands.CommandFails | binki-google-photos-navigation.user.js:111-141 | when the first pass of the loop throws, the whole tokenization throws the same error |
| PathCommands.TokenizeFromStep | binki-google-photos-navigation.user.js:111-143 | a pass that reads a command and consumes text puts that command in front of what the rest of the text tokenizes to |
| PathCommands.TokenizeFromStepFails | binki-google-photos-navigation.user.js:111-143 | a pass that reads a command, followed by text that throws, makes the whole tokenization throw that error |
| PathLayout.BlankIff | binki-google-photos-navigation.user.js:113 | the whitespace of a layout is exactly text made of the characters the trim removes |
| PathLayout.ReadArgsExact | binki-google-photos-navigation.user.js:128-137 | numerals, each preceded by any whitespace that keeps it apart from the one before, are read back exactly when that many are asked for, leaving the text after them |
| PathLayout.ReadArgsCutShort | binki-google-photos-navigation.user.js:128-134 | asking for more numerals than are written fails: with "Expected additional arguments" when only whitespace follows, with "Expecting argument" when the next position holds no numeral |
| PathLayout.WrittenStep | binki-google-photos-navigation.user.js:113-141 | one pass of the loop reads back one command written with any leading whitespace and separators, with its letter or by letter reuse, and consumes it |
| PathLayout.WrittenShort | binki-google-photos-navigation.user.js:113-141 | one pass over a command with too few numerals throws the error of the text where the next numeral should be |
| PathLayout.TokenizeWritten | binki-google-photos-navigation.user.js:108-144 | commands written in good layouts are read back one by one in front of whatever the following text tokenizes to, or that text's error |
| PathLayout.WrittenRoundTrip | binki-google-photos-navigation.user.js:108-144 | round trip: well-formed commands written in any good layout, with trailing whitespace, tokenize back to exactly those commands |
| PathLayout.TokenizeWrittenAll | binki-google-photos-navigation.user.js:108-144 | the round trip from the start of the data, where no letter is current yet |
| PathLayout.FailsAfter | binki-google-photos-navigation.user.js:108-144 | text that throws after well-formed commands makes the whole tokenization throw its error |
| PathLayout.PartialFails | binki-google-photos-navigation.user.js:128-134 | a command cut short throws "Expected additional arguments" before whitespace only, and "Expecting argument" before a non-numeral |
| PathLayout.CutShort | binki-google-photos-navigation.user.js:108-144 | a command cut short after well-formed commands makes the whole tokenization throw the error it throws on its own |
| PathLayout.UnsupportedFails | binki-google-photos-navigation.user.js:119-127 | a letter outside the argument table throws "Unsupported SVG path data command" for that letter |
| PathLayout.UnsupportedAfter | binki-google-photos-navigation.user.js:108-144 | an unsupported letter after well-formed commands makes the whole tokenization throw that error |
| PathLayout.TokenizeFromCompact | binki-google-photos-navigation.user.js:108-144 | round trip: tokenizing the compact text of any well-formed command list gives back that list |
| PathLayout.TokenizeCompact | binki-google-photos-navigation.user.js:108-144 | the compact round trip from the start of the data |
| ErrorExamples.MissingAtEnd | binki-google-photos-navigation.user.js:129-132 | `M 5` throws "Expected additional arguments" for `M` |
| ErrorExamples.CommaSeparated | binki-google-photos-navigation.user.js:133-134 | `M0,0` throws at the comma: a comma is not a separator here |
| ErrorExamples.UnknownLetter | binki-google-photos-navigation.user.js:119-127 | `M0 0 x` throws "Unsupported SVG path data command" for `x` after the good moveto |
| ErrorExamples.MissingAfter | binki-google-photos-navigation.user.js:129-132 | `M0 0L1` throws "Expected additional arguments" for `L` after the good moveto |
| PathCoordinates.Apply | binki-google-photos-navigation.user.js:164-193 | exactly the letters `h H l L m M z Z` are handled; a moveto also resets the subpath start; every other case keeps it |
| PathCoordinates.Run | binki-google-photos-navigation.user.js:149-196 | the loop succeeds exactly when every letter is handled, emits one point per command, and leaves the cursor on the last point |
| PathCoordinates.Evaluate | binki-google-photos-navigation.user.js:146-198 | one point per command, and failure exactly when some letter has no case |
| PathCoordinates.AbsoluteCoordinates | binki-google-photos-navigation.user.js:146-198 | a tokenizer error passes through; otherwise success exactly when every command letter is handled, with one point per command |
| PathCoordinates.RunStart | binki-google-photos-navigation.user.js:179-191 | the remembered subpath start is the point of the most recent moveto, or the origin when there has been none |
| PathCoordinates.RunPrefix | binki-google-photos-navigation.user.js:160-195 | points are emitted in command order: a run's prefix emits the prefix of its points |
| PathCoordinates.PointAt | binki-google-photos-navigation.user.js:164-194 | the point of each command follows from the command and the previous point, or the origin: `H L M` set coordinates, `h l m` add to them, `h`/`H` keep y, and `z`/`Z` return to the current subpath start |
| PathCoordinates.EvaluatePointwise | binki-google-photos-navigation.user.js:160-195 | the rule of `PointAt` holds at every emitted point |
| PathCoordinates.RunFirstUnhandled | binki-google-photos-navigation.user.js:192 | the run fails with the letter of the first unhandled command, not a partial list |
| PathCoordinates.EvaluateFirstUnhandled | binki-google-photos-navigation.user.js:192 | the evaluator reports the first unhandled command, such as `V` or a curve, and returns no points |
| Means.CompareMeans | binki-google-photos-navigation.user.js:225-229 | the verdict is -1, 0 or 1, and non-zero only when both sides are non-empty |
| Means.CompareMeansByCross | binki-google-photos-navigation.user.js:228-229 | -1 or 1 exactly when the cross-multiplied sums compare that way |
| Means.FoldFrom | binki-google-photos-navigation.user.js:228 | the `reduce` from any start value ends that far above the plain sum |
| Means.SumNegate | binki-google-photos-navigation.user.js:228 | negating every value negates the sum |
| Means.SumShift | binki-google-photos-navigation.user.js:228 | moving every value by `d` moves the sum by the length times `d` |
| Means.CompareMeansNegate | binki-google-photos-navigation.user.js:228-229 | negating both sides reverses the verdict |
| Means.CompareMeansShift | binki-google-photos-navigation.user.js:228-229 | moving both sides by the same amount keeps the verdict |
| ArrowDirection.MinY | binki-google-photos-navigation.user.js:209-210 | the first sorted y is a lower bound that some point attains |
| ArrowDirection.MaxY | binki-google-photos-navigation.user.js:209-211 | the last sorted y is an upper bound that some point attains |
| ArrowDirection.Direction | binki-google-photos-navigation.user.js:212-229 | the verdict on evaluated points is -1, 0 or 1, and non-zero only when there are points both inside and outside the band |
| ArrowDirection.PathArrowDirection | binki-google-photos-navigation.user.js:207-230 | succeeds exactly when the coordinates can be computed, passes their error on, answers within -1..1, and answers 0 for whitespace-only data |
| ArrowDirection.BucketsEmpty | binki-google-photos-navigation.user.js:218-227 | a bucket is empty exactly when no point falls on its side of the band |
| ArrowDirection.DirectionNeedsBothSides | binki-google-photos-navigation.user.js:225-227 | a non-zero verdict needs one point inside the band and one outside |
| ArrowDirection.Partition | binki-google-photos-navigation.user.js:216-224 | the two buckets together hold the x of every point exactly once |
| ArrowDirection.BucketOf | binki-google-photos-navigation.user.js:218-224 | each point's x is in the bucket its y selects |
| ArrowDirection.BoundaryIsMid | binki-google-photos-navigation.user.js:213-219 | a point exactly on the quarter or three-quarter line is a mid point |
| ArrowDirection.FlatIsNeutral | binki-google-photos-navigation.user.js:212-227 | points that all share one y give verdict 0 |
| ArrowDirection.MirrorReverses | binki-google-photos-navigation.user.js:207-230 | mirroring the outline left to right reverses the verdict |
| ArrowDirection.TranslateKeeps | binki-google-photos-navigation.user.js:207-230 | moving the outline keeps the verdict |
| ArrowDirection.FlipKeeps | binki-google-photos-navigation.user.js:207-230 | turning the outline upside down keeps the verdict |
| ArrowDirection.BucketsMirror | binki-google-photos-navigation.user.js:216-224 | mirroring negates both buckets |
| ArrowDirection.BucketsTranslate | binki-google-photos-navigation.user.js:216-224 | translating shifts both buckets, with the band moved by the same height |
| ArrowDirection.BucketsFlip | binki-google-photos-navigation.user.js:216-224 | flipping keeps both buckets, against the band flipped too |
| ArrowButtons.CandidateDirection | binki-google-photos-navigation.user.js:71-78 | a candidate without a path or without `d` gets verdict 0; any other verdict is -1, 0 or 1 |
| ArrowButtons.Directions | binki-google-photos-navigation.user.js:70-83 | succeeds exactly when every candidate classifies, with one verdict per candidate in order; otherwise it fails with the first failing candidate's error |
| ArrowButtons.FirstWith | binki-google-photos-navigation.user.js:84-86 | the first index holding the wanted verdict, or none when no index holds it |
| ArrowButtons.PickArrowButton | binki-google-photos-navigation.user.js:70-89 | the chosen candidate has the wanted verdict and no earlier one does; none is chosen only when no candidate has it; one failing candidate aborts the pick with its error |
| TestVectors.LeftTokens | binki-google-photos-navigation.user.js:247-294 | the left icon's path tokenizes to `M l l L l l z` with the asserted argument strings |
| TestVectors.LeftEvaluates | binki-google-photos-navigation.user.js:295-303 | the left icon evaluates to the seven asserted points |
| TestVectors.LeftCoordinates | binki-google-photos-navigation.user.js:295-303 | `getPathAbsoluteCoordinates` on the left icon's path data returns the seven asserted points |
| TestVectors.LeftDirection | binki-google-photos-navigation.user.js:304 | the left icon's points classify as -1 |
| TestVectors.LeftVerdict | binki-google-photos-navigation.user.js:304 | the left icon's path data classifies as -1 |
| TestVectors.RightTokens | binki-google-photos-navigation.user.js:305 | the right icon's path tokenizes to `M l l L l l z` |
| TestVectors.RightMirrorsLeft | binki-google-photos-navigation.user.js:304-305 | the right icon's points are the left icon's mirrored and moved |
| TestVectors.RightDirection | binki-google-photos-navigation.user.js:305 | the right icon's points classify as 1 |
| TestVectors.RightVerdict | binki-google-photos-navigation.user.js:305 | the right icon's path data classifies as 1 |

## Left out

- The DOM work in `navigate` (lines 25-101) is host-page I/O:
  - finding the `cWiz` parent;
  - the candidate filter at lines 48-69 (visibility, `role`, `jsaction`, the only-child and `menubar` checks);
  - the click;
  - the refocusing loop.
  
  `ArrowButtons` starts from each candidate's `d` attribute, or its absence.
- The promise chain and its `.catch` (lines 18-24, 102-105), `whenChanged` (lines 232-244) and the keydown listener (lines 308-327) are browser scheduling and event plumbing.
- The `isTesting` / `maybeUseAssert` self-test hook (lines 11-16) is test plumbing. Its assertions appear as the `TestVectors` lemmas instead.
- Coordinates are exact reals, and `parseFloat` is a decimal-to-real function. IEEE-754 rounding is not modelled, so `15.41 - 4.58` is exactly `10.83` here.
- `parseFloat`'s NaN check (line 157) can never fire on a token that matched the numeral pattern, so it has no error constructor.
- The ascending `sort` of the y values (line 209) is used only for its first and last elements. It is modelled by `MinY` and `MaxY`.
- With no points, the script's band is NaN and both buckets stay empty. The model answers 0 directly, which is the script's answer too.
- `NonTerminating` is reported where the script loops forever. The model cannot return "never", so it returns this error instead.
- A non-numeric argument makes the script throw a `TypeError` at line 133, not the message at line 134. Both are `BadArgument` here.
- `PathCoordinates.Evaluate` requires well-formed commands: the script only feeds it the tokenizer's output, and `Tokenize` guarantees that form.
- `PathLayout` has no counterpart in the script. It writes commands out only to state the tokenizer's round trip and error propagation.
  - A layout may put any whitespace before a command and before each numeral, as long as two numerals in a row stay apart (whitespace between them, or a minus sign starting the second).
  - It leaves a letter out only where the script's letter reuse brings it back: the letter repeats and the command has arguments.
  - It does not write the one fusion the script also accepts, a numeral starting with its point written right after one that already has a point, as in `0.5.5` for the two numerals `0.5` and `.5`. Those texts are still tokenized by the model; only the round trip is not stated for them.
  - `Compact` is one such layout: one space between numerals, or none before a minus sign.
