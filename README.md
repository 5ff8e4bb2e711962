# Grid gutters, pin-code values and pagination validators

This project models, in Dafny, the logic of three components of a UI component library. The rendering is not modelled.

- **Layout grid** (`LayoutGrid`, `layout_grid.dfy`). `transition` rewrites the deprecated `isGapless` prop into `gutter`. `getGutterClassNames` turns a gutter configuration into responsive class names. `LayoutGrid` composes the class attribute from `BASE_CLASS`, the `--ai-`/`--jc-` classes and the gutter classes. The settings constants (`GUTTER_VALUES`, `BREAKPOINTS`, `BASE_CLASS`) are a `Settings` parameter, because their values are not part of this model.
- **Validation code** (`ValidationCode`, `validation_code.dfy`). `normalizeValue` turns the value prop into its characters joined by commas. `arrayInnerValue` splits that string back into the pin input's cells. The change, clear and send/resend handlers store or report the value. The component's own state (the inner value of `useControlledState`) is a field of the class `ValidationCodeState`, changed by the methods `Change` and `Clear`.
- **Pagination prop validators** (`Pagination`, `pagination.dfy`). `isValidPage`, `isValidShowPages` and `isValidTotalPages` take `(props, propName, componentName)` and return `null` or an error. The validators' source is not part of this model; their behaviour is taken from their test file. Errors are kept as a kind (not a number, negative, out of range) with the prop and component names.
- **JavaScript built-ins** (`Js`, `js.dfy`). `Array.prototype.join`, `String.prototype.split` on one character, `split('')`, `filter(Boolean)` and the classnames helper `cx` ("keep the non-empty strings, join them with one space"). Lemmas prove that split and join on a separator undo each other.

Two readings of the source that the model fixes:
- An unknown scalar gutter (a string or number that is not a gutter value) gives `null`, as line 31 of the grid returns, not an empty class string.
- The validators check number, then sign, then range, and stop at the first failure. The tests fix this order only where a single check fails.
- A `totalPages` that is not a number bounds nothing, and a negative `totalPages` puts every non-negative page, 0 included, out of range. The tests only use a `totalPages` of 1 or 2.

## Model

| member | source | states |
|---|---|---|
| `Js.Join` | components/molecule/validationCode/src/validationCode.js:17 | `[]` joins to `''`. Otherwise the joined string is as long as all the parts plus one separator between each pair of neighbours; `Js.JoinStartsWithFirst`, `Js.JoinEndsWithLast` and `Js.SplitJoin` give its content. The same join is used at validationCode.js:65 and :82 and at index.js:29 |
| `Js.KeepNonEmpty` | components/molecule/validationCode/src/validationCode.js:82 | `filter(Boolean)` on strings keeps no empty string and never adds parts; `Js.KeepNonEmptyShape` adds that it keeps exactly the non-empty ones |
| `Js.Cx` | components/layout/grid/src/index.js:36-41 | `cx` gives `''` exactly when every argument is falsy; `LayoutGrid.ClassListShape` and `LayoutGrid.ClassNameBounds` give its content for the grid |
| `Js.Split` | components/molecule/validationCode/src/validationCode.js:51-52 | `split` on one character always gives at least one piece, and no piece contains the separator |
| `Js.SplitJoin` | components/molecule/validationCode/src/validationCode.js:51-60 | splitting a comma-joined non-empty list of cells that contain no comma gives back exactly those cells (the empty list joins to `''`, which splits into `['']`) |
| `Js.JoinSplit` | components/molecule/validationCode/src/validationCode.js:51-52 | joining the pieces of a split with the separator gives back the original string, for every string |
| `Js.Chars` | components/molecule/validationCode/src/validationCode.js:17 | `split('')` gives one cell per character, and cell i is character i |
| `Js.ConcatIgnoresEmpty` | components/molecule/validationCode/src/validationCode.js:82 | `filter(Boolean)` before `join('')` does not change the joined string |
| `Js.KeepNonEmptyShape` | components/layout/grid/src/index.js:37-42 | `cx` keeps exactly the non-empty arguments, and never more than it was given |
| `Js.KeepNonEmptyAppend` | components/layout/grid/src/index.js:37-42 | `cx` filters each argument on its own, so the argument order is kept |
| `Js.KeepNonEmptyOfFour` | components/layout/grid/src/index.js:37-42 | for the four arguments `LayoutGrid` passes, the kept list is each non-empty argument, in order |
| `Js.JoinStartsWithFirst` | components/layout/grid/src/index.js:37-42 | the first class is a prefix of the space-joined class string |
| `Js.JoinEndsWithLast` | components/layout/grid/src/index.js:37-42 | the last class is a suffix of the space-joined class string |
| `Js.SplitWithoutSeparator` | components/molecule/validationCode/src/validationCode.js:52 | a string without the separator splits into just itself |
| `Js.SplitAtFirstSeparator` | components/molecule/validationCode/src/validationCode.js:52 | a separator-free piece followed by the separator is split off as one cell |
| `Js.JoinCons` | components/layout/grid/src/index.js:29 | joining a head and a non-empty tail puts the separator between the head and the joined tail |
| `Js.JoinPrependFirst` | components/molecule/validationCode/src/validationCode.js:52 | text added in front of the first part appears in front of the joined string |
| `Js.ConcatIsAppend` | components/molecule/validationCode/src/validationCode.js:65 | `join('')` is the first cell followed by the join of the rest |
| `LayoutGrid.Transition` | components/layout/grid/src/index.js:13-16 | `isGapless` is gone and the other props are unchanged. A `gutter` key always wins, even one set to `undefined`. Without that key, the gutter is `0` when `isGapless` is truthy and `undefined` otherwise |
| `LayoutGrid.GutterClassNames` | components/layout/grid/src/index.js:18-32 | `undefined` gives `""`. A scalar gives a string exactly when it is a gutter value, and `null` otherwise. An object always gives a string, and `""` when none of its keys is a breakpoint value |
| `LayoutGrid.NatText` | components/layout/grid/src/index.js:20 | the decimal text of a natural number is digits only, starts with `0` only when it is `"0"`, and reads back as the number |
| `LayoutGrid.TokenText` | components/layout/grid/src/index.js:20-25 | a string prints as itself. A number prints as its canonical decimal digits: a leading `-` exactly when it is negative, no leading zero except for `"0"` itself, and the digits read back as its magnitude |
| `LayoutGrid.XxsBreakpoint` | components/layout/grid/src/index.js:20 | `BREAKPOINTS.XXS` prints as `undefined` when missing, and otherwise is one of the breakpoint values |
| `LayoutGrid.Recognised` | components/layout/grid/src/index.js:24 | `Object.values(BREAKPOINTS).includes(key)` holds exactly when some breakpoint name maps to `key` |
| `LayoutGrid.GutterClassList` | components/layout/grid/src/index.js:22-28 | the mapped and filtered entries give at most one class per entry, and no class exactly when no key is a breakpoint value; `LayoutGrid.GutterClassesFollowEntries` gives each class |
| `LayoutGrid.ScalarIsXxsEntry` | components/layout/grid/src/index.js:19-29 | with `BREAKPOINTS.XXS` set, a scalar gutter value gives the same class as an object naming the XXS breakpoint with that value |
| `LayoutGrid.ClassArgs` | components/layout/grid/src/index.js:35-40 | the four `cx` arguments: `BASE_CLASS`, an `--ai-` argument that is non-empty exactly when `alignItems` is truthy, a `--jc-` argument that is non-empty exactly when `justifyContent` is truthy, and the gutter string of the transitioned `gutter` |
| `LayoutGrid.ClassName` | components/layout/grid/src/index.js:35-41 | the class attribute is `''` exactly when `BASE_CLASS` is empty, neither `alignItems` nor `justifyContent` is truthy and the gutter gives no class; `LayoutGrid.ClassListShape`, `LayoutGrid.ClassListOrder` and `LayoutGrid.ClassNameBounds` give its content |
| `LayoutGrid.ScalarGutterClass` | components/layout/grid/src/index.js:19-20 | a gutter value gives exactly `BASE_CLASS--gutter-<BREAKPOINTS.XXS>-<value>`, and that string splits into this one class |
| `LayoutGrid.UnknownScalarIsNull` | components/layout/grid/src/index.js:19-31 | a primitive that is not a gutter value gives `null` |
| `LayoutGrid.NoRecognisedKeys` | components/layout/grid/src/index.js:22-29 | entries whose keys are all unrecognised give no class, and no error |
| `LayoutGrid.GutterClassesFollowEntries` | components/layout/grid/src/index.js:21-29 | the classes match one-to-one the entries whose key is among `Object.values(BREAKPOINTS)`, in entry order. Class k is `BASE_CLASS--gutter-<key>-<value>` of the k-th such entry. Every entry with a recognised key gets its class, and values are not checked against `GUTTER_VALUES` |
| `LayoutGrid.ClassesAtRecognisedIndices` | components/layout/grid/src/index.js:23-27 | class k is the class of the entry at the k-th recognised position |
| `LayoutGrid.RecognisedIndicesIncrease` | components/layout/grid/src/index.js:22-28 | the recognised positions lie within the entries and increase strictly, so the class order is the entry order |
| `LayoutGrid.RecognisedIndicesComplete` | components/layout/grid/src/index.js:23-27 | every entry with a recognised key is listed among the recognised positions |
| `LayoutGrid.GutterClassCount` | components/layout/grid/src/index.js:22-29 | an object gives at most one class per entry, and exactly one per entry when every key is recognised |
| `LayoutGrid.GutterClassesAppend` | components/layout/grid/src/index.js:22-29 | the classes of concatenated entries are the concatenated classes, so order is kept |
| `LayoutGrid.GutterClassesSplit` | components/layout/grid/src/index.js:22-29 | when an object config gives a non-empty list of classes and no class contains a space, its string splits on spaces into exactly those classes |
| `LayoutGrid.GutterClassesPrefixed` | components/layout/grid/src/index.js:24 | every class of an object config starts with `BASE_CLASS--gutter-` |
| `LayoutGrid.GutterStringPrefixed` | components/layout/grid/src/index.js:18-32 | a non-empty gutter string starts with `BASE_CLASS--gutter-` |
| `LayoutGrid.ClassListShape` | components/layout/grid/src/index.js:36-42 | the kept class list is `BASE_CLASS`, then the `--ai-` class, then the `--jc-` class, then the gutter string, each only when non-empty or truthy |
| `LayoutGrid.ClassKindsDiffer` | components/layout/grid/src/index.js:37-41 | the base class, an `--ai-` class, a `--jc-` class and a gutter string are pairwise different, the base class and the gutter string included |
| `LayoutGrid.ClassListOrder` | components/layout/grid/src/index.js:36-42 | `BASE_CLASS` comes first and the gutter string last. The `--ai-` class is in the list exactly when `alignItems` is truthy, and the `--jc-` class exactly when `justifyContent` is truthy. The list has one class per truthy part |
| `LayoutGrid.ClassNameBounds` | components/layout/grid/src/index.js:36-42 | the class attribute starts with `BASE_CLASS` and ends with the gutter classes |
| `LayoutGrid.NoGutterNoGutterClass` | components/layout/grid/src/index.js:13-18 | with no `gutter` and no truthy `isGapless`, the gutter defaults to `{}` and adds no class |
| `ValidationCode.NormalizeValue` | components/molecule/validationCode/src/validationCode.js:13-19 | `undefined` stays `undefined`, `''` gives `''`, and a non-string gives its template text |
| `ValidationCode.CommaJoinedChars` | components/molecule/validationCode/src/validationCode.js:17 | the characters joined by commas: character i at position 2i, commas between them, length 2n-1 |
| `ValidationCode.NormalizeInterleaves` | components/molecule/validationCode/src/validationCode.js:13-19 | `normalizeValue` of a string interleaves its characters with commas |
| `ValidationCode.NormalizeRoundTrip` | components/molecule/validationCode/src/validationCode.js:46-52 | for a non-empty string without commas, splitting `normalizeValue(s)` on commas gives its single characters |
| `ValidationCode.InitialInnerValue` | components/molecule/validationCode/src/validationCode.js:30-49 | with `defaultValue` missing or `''` the inner value starts as `''`; any other default (a string or not) starts it as `normalizeValue` of that default |
| `ValidationCode.ArrayValue` | components/molecule/validationCode/src/validationCode.js:51-52 | an empty inner value stays the string `''`, not an array. Otherwise the cells are at least one, none contains a comma, and joining them with commas gives back the inner value |
| `ValidationCode.CellsRoundTrip` | components/molecule/validationCode/src/validationCode.js:51-60 | after a change to comma-free cells whose join is non-empty, `arrayInnerValue` is exactly those cells |
| `ValidationCode.InitialCells` | components/molecule/validationCode/src/validationCode.js:46-52 | a comma-free default value is shown one character per cell, and `''` stays the string `''` |
| `ValidationCode.ChangeValue` | components/molecule/validationCode/src/validationCode.js:64-65 | for 'string' the value is the text of the cells concatenated in order: `''` for no cells, and otherwise the first cell followed by the value of the rest, so its length is the cells' total length. Otherwise it is the cells themselves |
| `ValidationCode.SendValueAsWritten` | components/molecule/validationCode/src/validationCode.js:76-87 | as written, the click throws exactly when the inner value is empty and the value type is 'string' |
| `ValidationCode.SendValue` | components/molecule/validationCode/src/validationCode.js:76-87 | for 'string' the click reports the cells joined with `''`, and `''` when there are none. Otherwise it reports the cells, or the string `''`. Wherever the code as written does not throw, the two agree |
| `ValidationCode.SendOnEmptyCode` | components/molecule/validationCode/src/validationCode.js:30-87 | on a fresh component with value type 'string', send throws as written and reports `''` once corrected |
| `ValidationCode.EmptyCommaJoin` | components/molecule/validationCode/src/validationCode.js:60 | cells that comma-join to `''` are none or one empty cell, and they also join to `''` with no separator |
| `ValidationCode.SendAgreesWithChange` | components/molecule/validationCode/src/validationCode.js:59-87 | for value type 'string' and comma-free cells, send after a change reports the same value as the change did |
| `ValidationCode.ValidationCodeState.constructor` | components/molecule/validationCode/src/validationCode.js:46-49 | in the uncontrolled case the inner value starts as the normalized default |
| `ValidationCode.ValidationCodeState.ArrayInnerValue` | components/molecule/validationCode/src/validationCode.js:51-52 | the cells are the empty string exactly when the inner value is empty |
| `ValidationCode.ValidationCodeState.Change` | components/molecule/validationCode/src/validationCode.js:59-67 | stores the cells joined by commas. With `onChange`, calls it once with the cells and a value that is their `''`-join for 'string' and the cells otherwise |
| `ValidationCode.ValidationCodeState.Clear` | components/molecule/validationCode/src/validationCode.js:69-74 | the inner value becomes `''`. Then `onClear` is called, then `onChange` with `{value: '', innerValue: []}`, each only when given |
| `ValidationCode.ValidationCodeState.OnHandler` | components/molecule/validationCode/src/validationCode.js:76-87 | no handler gives no click handler (`undefined`). Otherwise the click throws exactly when the value type is 'string' and the inner value is empty; everywhere else it reports what `SendValue` reports: for 'string' the cells joined with `''`, and for the other type the string `''` when the inner value is empty |
| `ValidationCode.TypeThenSend` | components/molecule/validationCode/src/validationCode.js:59-87 | with value type 'string', typing comma-free cells reports their `''`-join on the change; sending then reports the same value, or throws when the cells comma-join to `''` (no cells, or one empty cell) |
| `ValidationCode.ClearThenSend` | components/molecule/validationCode/src/validationCode.js:69-87 | after a clear, send throws for value type 'string' and reports the string `''` (not an empty list) for the other type |
| `Pagination.CheckNumber` | components/molecule/pagination/test/index.test.js:119-160 | passes exactly for `undefined` or a non-negative number. The error names the prop and the component, and it is the number error exactly for a non-number |
| `Pagination.CheckBounded` | components/molecule/pagination/test/index.test.js:119-191 | passes exactly for `undefined`, or for a non-negative number not above a numeric `totalPages`. The error names the prop and component, the number error comes exactly from a non-number, and a range error only from a number above `totalPages` |
| `Pagination.IsValidPage` | components/molecule/pagination/test/index.test.js:114-192 | `page` passes exactly when undefined, or a non-negative number not above a numeric `totalPages`. The error names the prop and component, is the number error exactly for a non-number, and is a range error only for a number above `totalPages` |
| `Pagination.IsValidShowPages` | components/molecule/pagination/test/index.test.js:194-272 | `showPages` passes exactly when undefined, or a non-negative number not above a numeric `totalPages`. The error names the prop and component, is the number error exactly for a non-number, and is a range error only for a number above `totalPages` |
| `Pagination.IsValidTotalPages` | components/molecule/pagination/test/index.test.js:274-330 | passes exactly for `undefined` or a non-negative number, and never reports out of range. The error names the prop and the component, and is the number error exactly for a non-number |
| `Pagination.FirstFailureWins` | components/molecule/pagination/test/index.test.js:130-160 | a non-number gives the number error and a negative number the positive-value error, as the tests show with no `totalPages`; that this holds whatever `totalPages` is follows from the number, then sign, then range order the model fixes |
| `Pagination.UndefinedIsValid` | components/molecule/pagination/test/index.test.js:119-128 | an undefined page, showPages or totalPages validates to `null` |
| `Pagination.NonNumberIsNumberError` | components/molecule/pagination/test/index.test.js:130-144 | `'value'` gives the number error for that prop and component |
| `Pagination.MinusOneIsPositiveError` | components/molecule/pagination/test/index.test.js:146-160 | `-1` gives the positive-value error for each of the three props |
| `Pagination.TenOfTwoIsRangeError` | components/molecule/pagination/test/index.test.js:162-177 | page or showPages 10 with totalPages 2 gives the in-range error |
| `Pagination.OneOfTwoIsValid` | components/molecule/pagination/test/index.test.js:179-191 | page or showPages 1 with totalPages 2 validates to `null` |
| `Pagination.TotalPagesOneIsValid` | components/molecule/pagination/test/index.test.js:318-329 | totalPages 1 alone validates to `null`; nothing bounds it |

## Left out

- Rendering: JSX, `forwardRef`, refs, DOM output, `PinInput`, `AtomButton`, `ValidationText` and the grid's `children` are not modelled.
- `LayoutGrid.GutterClassNames`: requires a non-null config. `Object.entries(null)` throws a TypeError, and the model does not represent that throw. The grid functions that use it require the `gutter` prop not to be `null`.
- `LayoutGrid.TokenText`, `Pagination.PropValue`: numbers are unbounded integers. JavaScript numbers are safe integers only up to 2^53, and print in exponent form from 10^21 on; exponent printing and precision loss above 2^53 (two page numbers that JavaScript cannot tell apart) are not modelled.
- Gutter tokens are integers or strings. Booleans, floats, `-0` and functions as gutter values are not represented. An array given as gutter is an object whose keys are its indices, and it can be written as `PerBreakpoint` with the keys "0", "1", and so on.
- Object configs are taken as their `Object.entries` list. The engine's key ordering (integer-like keys first) is not modelled.
- Other props that `transition` passes through untouched, other than `alignItems` and `justifyContent`, are not modelled.
- The controlled case of `useControlledState` (a defined `value` prop) is not modelled. Only the uncontrolled case is.
- `getPinInputValueType` is not part of this model. Its answer is the constructor parameter `valueIsString`.
- Event objects are not modelled. A handler call is recorded as a `Callback` value, and the send/resend click is the value it would report.
- `Js.Chars`: strings are sequences of Unicode scalar values. `split('')` in the source splits into UTF-16 code units, so a character outside the Basic Multilingual Plane is two cells there and one cell here; Dafny's `char` cannot hold a lone surrogate, and such characters are not modelled. The `2n-1` length of `normalizeValue` counts characters, not code units.
- Cells that contain commas are stored joined and split into more cells later. The round-trip lemmas assume comma-free cells.
- The validators' source and their message texts (`getMessageErrorNumber`, `getMessageErrorPositive`, `getMessageErrorInRange`) are not part of this model. Errors are kinds.
- The pagination tests for rendering and module exports are not modelled.
- `NaN`, `Infinity` and non-integer numbers as pagination props are not represented.
- The modal, sticky and atom validation-code demo pages hold no logic and are not modelled.

## Findings

| source | as written | input that shows it | evidently intended | confidence | as-written member | corrected member |
|---|---|---|---|---|---|---|
| components/molecule/validationCode/src/validationCode.js:76-87 | With value type 'string', the send/resend click calls `arrayInnerValue.filter(Boolean)`. When the inner value is empty, `arrayInnerValue` is the string `''` (line 52). Strings have no `filter`, so the click throws a TypeError | no `value` prop, `defaultValue` left at `''`, `getPinInputValueType` answering 'string', an `onSend` handler; press send before typing or after clear | report `{value: ''}` | medium, not executed; depends on `getPinInputValueType`, which is not part of this model | `ValidationCode.SendValueAsWritten` | `ValidationCode.SendValue` |
