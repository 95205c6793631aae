# Yan language core, modelled in Dafny

Yan is a small dynamically typed scripting language. Its interpreter is a single C++
header, `yan-lang.hpp`. A translator, `yan-translator.hpp`, turns a Yan syntax tree into
Python source. That output runs against a support layer, `builtins_py/common.py`. This
project models the deterministic core of all three, plus the string library
`yan-libstring.cpp`, and proves properties of the model.

One module per component:

- `Common`: the `Result`/`Option` wrappers and string helpers (prefix, suffix, join,
  decimal text).
- `Lexer`: the `Lexer` class. It moves a position through the text and yields tokens.
  The class is proved against the recursive specification `Lex`. Also the string escape
  table and `String::Representation`.
- `TextUtil`: `Split`, which works like `strtok`, and `SubReplace`.
- `Symbols`: `SymbolTable`, a map with a chain of enclosing tables.
- `Values`: the runtime values and the in-place operations of `List` and `Dictionary`.
  Also the `String` operations (indexing, `+`, `*`, `==`, `!=`, truth and length) and
  the class-literal rule.
- `Arity`: the argument checks and argument binding of functions, methods and builtins.
- `Builtins`: the list builtins `append`, `remove`, `concat`, `range` and `set`, the
  environment variables, and the name shapes that `import` and `require` accept.
- `StringLib`: `CheckIndex`, `Sub`, `Replace`, `Substitute`, `Format`, `StartsWith`,
  `EndsWith`, `_Split`, `ToCharArray`, and the argument checks of `Repeat`.
- `Translator`: the `Translator` class.
  - Each `Visit*` method is proved to return the text that the function `Render` gives
    at the current block depth, and to leave the depth as it found it.
  - The tree is the module's own datatype. It holds the fields the translator reads.
- `PySupport`: the Python layer.
  - `yan_dict_impl` as a class over a map.
  - The list builtins as in-place updates of a list object.
  - `require`, which writes into the caller's globals, and `import`.
- `Consistency`: how the translator's output meets the Python layer. It checks which
  names translated code calls and whether the layer defines them. It also compares the
  two module-name rules.

Failures are values. A C++ `RuntimeResult` error or a Python exception becomes the
`Err` of a `Result`. Undefined behaviour in the C++ source has its own outcome:
`Undefined` for an out-of-range `erase` or `at`, and `Diverges` for a loop that never
ends.

## Model

| member | source | states |
|---|---|---|
| Symbols.SymbolTable.constructor | yan-lang.hpp:3155-3157 | a global table is empty, has no parent and resolves no name |
| Symbols.SymbolTable.Nested | yan-lang.hpp:3159-3161 | a nested table is empty and resolves every name exactly as its enclosing table does |
| Symbols.SymbolTable.Get | yan-lang.hpp:3163-3178 | the result is the innermost binding along the parent chain, or nothing when no table on the chain binds the name |
| Symbols.SymbolTable.Set | yan-lang.hpp:3180-3186 | the name is bound in this table only (inserted or overwritten); it now resolves to the new value, every other name resolves as before, and the parent chain is unchanged |
| Symbols.SymbolTable.Remove | yan-lang.hpp:3188-3190 | only the local binding is dropped: the name now resolves as in the parent (nothing for a global table), every other name as before |
| Values.StringIndex | yan-lang.hpp:3319-3351 | a string subscription succeeds exactly for an integer index in [0, length) and yields the one-character string there; every failure is a TypeError |
| Values.Repeat | yan-lang.hpp:3219-3225 | the result is `times` copies of the string, none for a count of zero or below: its length is the string's length times that count, and character k is character k mod length of the string |
| Values.StringMultipliedBy | yan-lang.hpp:3239-3252 | succeeds exactly for an Int operand, giving the repeated string; a double count is a TypeError and any other operand the IllegalOperation of `*` |
| Values.StringAddTo | yan-lang.hpp:3230-3237 | succeeds exactly for a String operand, giving a string that starts with the receiver and ends with the operand; otherwise the IllegalOperation of `+` |
| Values.StringComparisons | yan-lang.hpp:3254-3268 | `==` and `!=` on a string are defined exactly for String operands, where the dictionary's key comparison is defined, and give Number 1 or 0 by that comparison's verdict; `!=` gives the opposite number; a non-String operand is a TypeError |
| Values.StringAsBoolLen | yan-lang.hpp:3270-3284 | a string is true exactly when index 0 is accepted, and an integer index is accepted exactly when it lies in [0, `Len`) |
| Values.StringAddToLen | yan-lang.hpp:3230-3237 | the length of a sum of strings is the sum of the lengths, and the sum is true exactly when one of the parts is |
| Values.ListIndexInt | yan-lang.hpp:3433-3457 | an integer list index is accepted exactly when it lies in [-size, size), designating slot i or size + i; a rejected one is a RuntimeError |
| Values.ListIndexClasses | yan-lang.hpp:3433-3457 | an accepted index is a valid slot; a rejection is a TypeError exactly when the index is not a number or is a double |
| Values.MultipliedByAsWrittenRepeats | yan-lang.hpp:3390-3402 | as written, `[x] * [y]` gives `[x, x, y]`, not the concatenation |
| Values.RemoveIndexAsWrittenLetsMinusOneThrough | yan-lang.hpp:3404-3431 | as written, index -2 on a one-element list passes the guard as position -1, which the corrected check rejects |
| Values.RemoveAt | yan-lang.hpp:3426-3427 | the result is one shorter, keeps the elements before the position and shifts those after it down by one |
| Values.ListObject.constructor | yan-lang.hpp:3381 | the list holds the given elements |
| Values.ListObject.AddTo | yan-lang.hpp:3384-3388 | a fresh list with the element appended; the receiver is unchanged |
| Values.ListObject.Copy | yan-lang.hpp:3490-3495 | a fresh list with the same elements |
| Values.ListObject.MultipliedBy | yan-lang.hpp:3390-3402 | succeeds exactly for a list operand, giving a fresh list of the receiver's elements followed by the operand's; otherwise the IllegalOperation error of `<list-concat '*'>` |
| Values.ListObject.SubstractedBy | yan-lang.hpp:3404-3431 | succeeds exactly when the index check accepts, giving a fresh copy without that element; otherwise the check's error |
| Values.ListObject.Subscription | yan-lang.hpp:3433-3461 | succeeds exactly when the index check accepts and yields the element at the designated slot; otherwise the check's error |
| Values.ListObject.SubscriptionAssignment | yan-lang.hpp:3463-3488 | on an accepted index exactly that slot is replaced and the result is the null number; on a rejected one the list is unchanged and the check's error is returned |
| Values.ListObject.Len | yan-lang.hpp:3497-3499 | the integer number of elements |
| Values.ScanFromSpec | yan-lang.hpp:3560-3575 | the key scan finds position p exactly when every earlier key is comparable and unequal and the key at p is equal; it finds nothing exactly when all keys are comparable and unequal |
| Values.DictObject.constructor | yan-lang.hpp:3550 | the dictionary holds the given entries |
| Values.DictObject.Copy | yan-lang.hpp:3629-3633 | a fresh dictionary holding the same key and value objects; the receiver is unchanged |
| Values.DictObject.Subscription | yan-lang.hpp:3560-3580 | the value of the first equal key; a TypeError when the scan meets a key it cannot compare; an AttributeError when no key is equal |
| Values.DictObject.SubscriptionAssignment | yan-lang.hpp:3582-3607 | overwrites the value of the first equal key, or inserts a String or Number key as a new entry; any other new key, or an incomparable key on the way, is a TypeError with the dictionary unchanged |
| Values.DictObject.GetAttr | yan-lang.hpp:3609-3623 | the value of the first String key spelled like the attribute, non-String keys skipped |
| Values.DictObject.SetAttr | yan-lang.hpp:3625-3627 | an assignment through the String key `attr`: a key the scan cannot compare gives a TypeError and leaves the entries unchanged; otherwise the first equal key keeps its place and takes the new value, or the String key is inserted at the given position, exactly as `SubscriptionAssignment` does; the attribute then reads back as the new value |
| Values.AttrAfterOverwrite | yan-lang.hpp:3582-3627 | overwriting the first key spelled `attr` makes the attribute read back the new value |
| Values.AttrAfterInsert | yan-lang.hpp:3582-3627 | inserting a new key `attr` makes the attribute read back the new value, wherever it is inserted |
| Values.AssignThenLookup | yan-lang.hpp:3560-3607 | after a successful subscription assignment, looking up the same key finds the value just stored |
| Values.AttrLookupExists | yan-lang.hpp:3609-3623 | a String key spelled `attr` anywhere makes the attribute lookup succeed |
| Values.AttrLookupFirst | yan-lang.hpp:3609-3623 | the attribute lookup yields the value of the first String key spelled like the attribute |
| Values.AttrLookupAbsent | yan-lang.hpp:3609-3623 | with no String key spelled like the attribute the lookup is the AttributeError "Could not found attribute" |
| Values.ClassifyLiteral | yan-lang.hpp:5794-5836 | a literal without a `'__cls__'` key is a plain dictionary; with one but no `'__init__'` it is a TypeError; with both it is a class prototype named by the first `'__cls__'` value when that is a String, else a TypeError |
| Arity.NoMutableNames | yan-lang.hpp:3752-3757 | the scan collects no mutable parameter exactly when no parameter name is of the `_x_` form |
| Arity.MutableCheckCases | yan-lang.hpp:3749-3779 | the scan accepts no mutable parameter or a single trailing one (and reports that one); any other placement is a RuntimeError |
| Arity.CollectMutableNames | yan-lang.hpp:3751-3757 | the loop collects exactly the mutable parameters, in declaration order |
| Arity.CheckMutableArgument | yan-lang.hpp:3749-3779 | the collected names give the scan's verdict; a reported mutable parameter is the last and only one |
| Arity.FunctionCheckSpec | yan-lang.hpp:3781-3798 | a plain function accepts exactly as many arguments as parameters (else a TypeError); with a trailing mutable parameter it accepts one fewer or more; other placements always fail with a RuntimeError |
| Arity.MethodCheckSpec | yan-lang.hpp:3882-3916 | a method's receiver takes the first parameter: without a mutable parameter it accepts exactly one argument per remaining parameter (too few a RuntimeError, too many a TypeError); with a trailing mutable parameter after the receiver, at least that many, the mutable one being reported; a mutable receiver is a RuntimeError |
| Arity.MethodWithoutParametersOverreads | yan-lang.hpp:3899-3916 | as written, a method with no parameters called with one argument reads past its parameter list; the corrected check rejects the call with a TypeError |
| Arity.MethodCheckAgrees | yan-lang.hpp:3882-3916 | wherever the as-written check is defined the corrected one gives the same verdict; it is undefined exactly for arguments passed to a method with no parameters and for every call of a method whose only parameter is mutable |
| Arity.MethodWithMutableReceiverOverreads | yan-lang.hpp:3800-3819 | as written, a method whose only parameter is mutable binds the receiver to it and then reads the first element of the empty remaining list, whatever the argument count; the corrected check gives a RuntimeError |
| Arity.CheckBuiltinArguments | yan-lang.hpp:4972-4993 | a builtin accepts exactly the argument counts between its number of non-optional (`__x__`) parameters and its number of parameters; failures are TypeErrors |
| Arity.BuiltinArities | yan-lang.hpp:4875-4906 | `range` takes one to three arguments, `input` none or one, `writeFile` two or three, `set` exactly three |
| Arity.BindAllKeeps | yan-lang.hpp:3711-3719 | binding arguments in order leaves every name no bound parameter carries as it was |
| Arity.BindAllBinds | yan-lang.hpp:3711-3719 | a parameter no later parameter repeats ends up bound to its own argument |
| Arity.PopulateArguments | yan-lang.hpp:3800-3819 | binds each positional parameter to its argument in the frame and, with a mutable parameter `_x_`, binds `x` to a fresh list of the remaining arguments; the frame's parent chain is unchanged |
| TextUtil.RunLen | yan-lang.hpp:305-313 | the leading run of non-delimiters has that length: every character before it is a non-delimiter and the one after it, if any, a delimiter |
| TextUtil.PiecesWellFormed | yan-lang.hpp:300-315 | every piece `strtok` yields is non-empty and free of delimiters |
| TextUtil.PiecesEmptyIff | yan-lang.hpp:305-306 | there is no piece at all exactly when every character is a delimiter |
| TextUtil.PiecesOfJoin | yan-lang.hpp:300-315 | splitting pieces joined by one delimiter character gives the pieces back |
| TextUtil.Split | yan-lang.hpp:300-315 | the loop yields exactly the maximal delimiter-free runs, in order, and fails (a null first token) exactly when there are none |
| TextUtil.FindFrom | yan-lang.hpp:295 | the first occurrence at or after the start position, or none when there is no occurrence from there on |
| TextUtil.SubReplaced | yan-lang.hpp:290-298 | replacing the first occurrence and searching again from the start never lengthens the text, because the replacement is shorter than the pattern |
| TextUtil.SubReplacedLeavesNone | yan-lang.hpp:290-298 | the result has no occurrence of the pattern left, and a text without occurrences comes back unchanged |
| TextUtil.SubReplaceRemovesCharacter | yan-lang.hpp:347 | replacing one character by nothing, as the interpreter's one caller does with the tab, gives the text with every occurrence of that character removed |
| TextUtil.SubReplace | yan-lang.hpp:290-298 | the loop's result is exactly `SubReplaced` of the input |
| Builtins.Append | yan-lang.hpp:4324-4335 | on a list, the element is pushed onto that same list in place and the result is the null number; anything else is the `_lst` TypeError |
| Builtins.Concat | yan-lang.hpp:4369-4388 | on two lists, the first list is extended in place by the second's elements; a non-list first or second argument is the matching TypeError with nothing changed |
| Builtins.RemoveIndexCheck | yan-lang.hpp:4337-4367 | an accepted index is a valid position |
| Builtins.RemoveFromEmptyList | yan-lang.hpp:4337-4367 | as written, `remove(lst, 0)` on an empty list passes every check and erases past the end; the corrected check rejects it |
| Builtins.RemoveIndexCheckAgrees | yan-lang.hpp:4337-4367 | wherever the as-written checks decide, the corrected checks decide the same |
| Builtins.Remove | yan-lang.hpp:4337-4367 | on an accepted index the list loses exactly that element in place; on any rejection the list is unchanged and the check's error is returned |
| Builtins.SetIndexCheck | yan-lang.hpp:4476-4504 | an accepted index is a valid position |
| Builtins.SetPastTheEnd | yan-lang.hpp:4476-4504 | as written, `set(lst, 1, v)` on a one-element list writes past the end; the corrected check rejects it |
| Builtins.SetIndexCheckAgrees | yan-lang.hpp:4476-4504 | wherever the as-written checks decide, the corrected checks decide the same |
| Builtins.Set | yan-lang.hpp:4476-4504 | on an accepted index exactly that slot is replaced in place; on any rejection the list is unchanged and the check's error is returned |
| Builtins.StepsSpec | yan-lang.hpp:4462-4464 | the k-th counted value is a + k*c; all lie below the bound and one more step would reach it |
| Builtins.Count | yan-lang.hpp:4461-4464 | the counting loop yields exactly the stepped values from a below b |
| Builtins.Range | yan-lang.hpp:4390-4472 | `range(a)` counts 0..a-1, `range(a, b)` a..b-1, `range(a, b, c)` in steps of c; a non-number argument is a TypeError, a negative or double one a ValueError; a zero step with a < b never ends |
| Builtins.WithDefaultsSpec | yan-lang.hpp:4058-4062 | defaults fill only missing keys: a key already set keeps its value, every required key ends up set, no other key appears |
| Builtins.WithDefaultsIdempotent | yan-lang.hpp:4058-4062 | filling in the defaults a second time changes nothing |
| Builtins.WithDefaultsKeepsSet | yan-lang.hpp:4058-4062 | when every required key is already set, filling in defaults changes nothing |
| Builtins.EnvVars.constructor | yan-lang.hpp:4001-4003 | the environment starts empty |
| Builtins.EnvVars.Has | yan-lang.hpp:4005-4011 | true exactly when the key is set |
| Builtins.EnvVars.Set | yan-lang.hpp:4013-4023 | the key is bound to the value, inserted or overwritten, and nothing else changes |
| Builtins.EnvVars.Get | yan-lang.hpp:4025-4035 | the key's value when it is set; nothing exactly when it is missing (where the source aborts) |
| Builtins.EnvVars.FillDefaults | yan-lang.hpp:4058-4062 | the environment becomes the old one completed with the default of every required key it lacked |
| Builtins.ImportOfDottedName | yan-lang.hpp:4663-4704 | a name of one dot-free segment uses a whole module, of two segments imports one symbol of `<first>.yan`, of more is a ValueError |
| Builtins.ImportIgnoresEmptySegments | yan-lang.hpp:4672-4673 | empty segments do not count: `a..b` imports like `a.b` |
| Builtins.ImportOfDotsOnly | yan-lang.hpp:4673 | a name made only of dots gives `strtok` no piece at all, where the source builds a string from a null pointer |
| Builtins.RequireOfNativeName | yan-lang.hpp:4723-4740 | `require '@m.s'` loads symbol s of native library m; any other number of segments after the `@` is a ValueError |
| Builtins.RequireOfPlainName | yan-lang.hpp:4714-4722 | a name without `@` always imports the module file `<name>.yan` |
| Builtins.JoinStartsWithFirst | yan-lang.hpp:4672 | a dotted name starts with `@` exactly when its first segment does |
| StringLib.IndexArgument | yan-libstring.cpp:37-52 | an argument is an index exactly when it is a Number holding a non-negative int, and it then denotes that int |
| StringLib.Sub | yan-libstring.cpp:269-297 | succeeds exactly for a string and two indices with start <= end <= length, giving the characters from start up to end; a non-string is a TypeError, a non-index a ValueError, an index past the end a TypeError, start > end a RuntimeError |
| StringLib.SubSplitsAt | yan-libstring.cpp:269-297 | the two substrings on either side of any cut point concatenate back to the string |
| StringLib.ReplaceWithoutOccurrence | yan-libstring.cpp:322-333 | a string without an occurrence of the pattern is returned unchanged |
| StringLib.ReplaceFirst | yan-libstring.cpp:322-330 | the first occurrence is the one replaced: the text before it is kept and the scan resumes after it |
| StringLib.ReplaceBySelf | yan-libstring.cpp:322-333 | replacing a pattern by itself changes nothing |
| StringLib.Replace | yan-libstring.cpp:300-335 | three strings give every non-overlapping occurrence, left to right, replaced; an empty pattern never terminates; any non-string argument is a TypeError |
| StringLib.Substitute | yan-libstring.cpp:338-375 | succeeds exactly for a string, two indices and a string with the position inside the source, giving the new text inserted before the character at that position; the argument errors in the source's order, and a RuntimeError for a position at or past the end |
| StringLib.Placeholder | yan-libstring.cpp:155-230 | a placeholder letter succeeds exactly on the values it accepts (`%d` an int, `%f` a double, `%l` a list, `%m` a mapping, `%s` a string, `%x` anything); `%d` prints the integer in decimal and `%s` the string itself; every failure is a ValueError |
| StringLib.ExpandUses | yan-libstring.cpp:129-238 | a successful expansion uses exactly one argument per placeholder |
| StringLib.FormatArity | yan-libstring.cpp:129-245 | formatting succeeds only with exactly as many arguments as placeholders |
| StringLib.FormatTrailing | yan-libstring.cpp:240-245 | leftover arguments after a complete expansion give the trailing-arguments ValueError |
| StringLib.ExpandTooFew | yan-libstring.cpp:149-154 | more placeholders than arguments make the expansion fail |
| StringLib.FormatPlainText | yan-libstring.cpp:135-238 | a text without `%` formats to itself with no arguments |
| StringLib.EscapePercent | yan-libstring.cpp:144-147 | doubling every `%` lengthens the text by the number of `%` characters |
| StringLib.FormatEscaped | yan-libstring.cpp:135-147 | a text with every `%` doubled formats back to the text with no arguments |
| StringLib.FormatOnePlaceholder | yan-libstring.cpp:155-230 | a lone placeholder with one argument formats exactly when the placeholder accepts the argument, `%d` in decimal and `%s` as the string itself |
| StringLib.Format | yan-libstring.cpp:117-248 | the one-pass scan with its pending-`%` flag gives exactly the expansion of the format text over the list's elements, or its error; a non-string format or a non-list argument is a TypeError |
| StringLib.ExpandPending | yan-libstring.cpp:135-237 | one character of the scan, with or without a pending `%`, advances the expansion by that character's text |
| StringLib.StartsWithText | yan-libstring.cpp:408-424 | 1 exactly when the first string is the second followed by something, 0 exactly when it is not; a non-string is a TypeError |
| StringLib.EndsWithText | yan-libstring.cpp:427-443 | 1 exactly when the first string is something followed by the second, 0 exactly when it is not; a non-string is a TypeError |
| StringLib.SplitText | yan-libstring.cpp:95-114 | a fresh list of the `strtok` pieces as Strings; a source made only of delimiters reaches the null-pointer case; a non-string is a TypeError |
| StringLib.CharactersRoundTrip | yan-libstring.cpp:252-266 | concatenating the exploded characters gives the string back |
| StringLib.ToCharArray | yan-libstring.cpp:252-266 | a fresh list with one String per character; a non-string is a TypeError |
| StringLib.RepeatArguments | yan-libstring.cpp:383-394 | the checks pass exactly for a string and a non-negative int count; a non-string or a bad count is a TypeError |
| Lexer.AdvancePosAt | yan-lang.hpp:201-209 | advancing the position of index i over the character found there gives the position of index i + 1: line = newlines before, column = distance from the last one |
| Lexer.StartPosition | yan-lang.hpp:456-459 | the start position (-1, 0, -1) advanced once is index 0 on line 0, column 0 |
| Lexer.IsKeywordFromSpec | yan-lang.hpp:466-473 | the linear search finds a word exactly when one of the keywords from that point on is the word |
| Lexer.LexEndsWithEof | yan-lang.hpp:660-746 | a successful run ends with exactly one `Eof` token, and no other token is `Eof` |
| Lexer.LexWord | yan-lang.hpp:552-564 | a word of letters, digits and underscores not starting with a digit lexes to one token: a `Keyword` exactly when it is one of the nineteen keywords, else an `Identifier`, followed by `Eof` |
| Lexer.LexOneToken | yan-lang.hpp:660-746 | a text whose first step emits a token and reaches the end lexes to that token and `Eof` |
| Lexer.DecimalDigits | yan-lang.hpp:475-480 | the decimal text of a natural number is made of digits and reads back as that number |
| Lexer.LexDecimal | yan-lang.hpp:520-550 | the decimal text of a natural number lexes to one `Int` token holding it (clamped at `LONG_MAX`) and `Eof` |
| Lexer.EscapeCharShape | yan-lang.hpp:51-59 | every character's escape is itself, when it needs none, or a backslash followed by a character that unescapes to it |
| Lexer.StringBodyOfEscape | yan-lang.hpp:622-658 | the body of an escaped string followed by a quote reads back as that string, ending after the quote |
| Lexer.LexRepresentation | yan-lang.hpp:622-658 | lexing the quoted representation of any string gives back exactly that string as one `String` token |
| Lexer.RepresentationAsWrittenMisreads | yan-lang.hpp:3301-3316 | as written, the two characters `\` `n` are represented as `'\n'`, which lexes back as a newline |
| Lexer.Lexer.constructor | yan-lang.hpp:456-459 | a new lexer stands on index 0 with the current character and position consistent with the text |
| Lexer.Lexer.Advance | yan-lang.hpp:515-518 | the position advances over the character being left and the current character is the one at the new index (none past the end), keeping them consistent |
| Lexer.Lexer.MakeNumber | yan-lang.hpp:520-550 | consumes digits and at most one dot, and returns the token `NumberToken` builds from exactly that lexeme at the start position |
| Lexer.Lexer.MakeIdentifier | yan-lang.hpp:552-564 | consumes the identifier characters and returns a `Keyword` token exactly when the lexeme is a keyword, else an `Identifier` token, holding the lexeme |
| Lexer.Lexer.MakeTwoCharToken | yan-lang.hpp:577-620 | the two-character token when the expected character follows (moving two places), the one-character token otherwise (moving one) |
| Lexer.Lexer.MakeNotEqualToken | yan-lang.hpp:566-575 | `!=` gives the `NotEqual` token; `!` followed by anything else is the SyntaxError; both move two places |
| Lexer.Lexer.MakeString | yan-lang.hpp:622-658 | a closed literal gives a `String` token with its unescaped contents and moves past the closing quote; a literal the text ends in gives the invalid token |
| Lexer.Lexer.ReadStringBody | yan-lang.hpp:632-650 | the loop of `MakeString`, kept as its own method: it stops at the end of the text or at an unescaped quote, and the contents read so far followed by what is still to be read make up the literal's body |
| Lexer.Lexer.NextStep | yan-lang.hpp:662-742 | one pass of the dispatch takes exactly the step `LexStep` defines, ending where that step continues |
| Lexer.Lexer.MakeTokens | yan-lang.hpp:660-746 | the token stream is exactly `Lex` of the rest of the text, or its first error |
| Lexer.Tokenize | yan-lang.hpp:6148-6149 | lexing a whole text gives `Lex` of it from index 0 |
| Translator.IndentShape | yan-translator.hpp:142-148 | the indent for depth `n` is four spaces per level, nothing for `n <= 0` |
| Translator.BinaryOperatorText | yan-translator.hpp:60-112 | exactly the arithmetic and comparison operators and the keywords `and` and `or` have Python text; `^` becomes `**`; a keyword keeps its word; any other operator stops the translator |
| Translator.UnaryPrefix | yan-translator.hpp:114-131 | in the corrected table `+`, `-` and the keyword operator (`not `) have a prefix and nothing else does; the written table lacks `-` (see `NegationUnsupportedAsWritten`) |
| Translator.NegationUnsupportedAsWritten | yan-translator.hpp:114-131 | as written `-x` stops the translator; the corrected table gives `-` |
| Translator.UnaryPrefixExtends | yan-translator.hpp:114-131 | the corrected table agrees with the written one wherever the written one has an entry |
| Translator.ParameterVariadic | yan-translator.hpp:249-255 | a parameter `_x_` is written as `*x` |
| Translator.ParameterPlain | yan-translator.hpp:249-255 | a parameter not starting with `_` is written as it is |
| Translator.Parameters | yan-translator.hpp:248-260 | each parameter is translated in place, the list keeping its length and order |
| Translator.LambdaParametersRunTogether | yan-translator.hpp:337-345 | as written the parameters of a dictionary lambda `(a, b)` come out as `ab`; the corrected list is `a, b` |
| Translator.LambdaParametersAgreeOnOne | yan-translator.hpp:337-345 | with at most one parameter the written and the corrected lambda lists agree |
| Translator.ListedJoin | yan-translator.hpp:224-231 | a comma-separated list whose items all translate is their texts joined with `", "` |
| Translator.ListedOk | yan-translator.hpp:224-231 | a comma-separated list translates exactly when every item does |
| Translator.LinesAppend | yan-translator.hpp:292-296 | the statement lines of `a + b` are those of `a` followed by those of `b` |
| Translator.LinesSingle | yan-translator.hpp:292-296 | a one-statement block is that statement behind the block's indent, ended by a newline |
| Translator.WhileBodyIndented | yan-translator.hpp:201-210 | the body of a `while` at depth `d` is indented to depth `d + 1` |
| Translator.CallRendering | yan-translator.hpp:212-234 | a call of a name gets the `yan_builtin_impl_` prefix exactly when the name is a builtin, and its arguments are joined with `", "` in parentheses |
| Translator.ListRendering | yan-translator.hpp:274-291 | a value list is `[]` when empty and its items joined with `", "` in brackets otherwise |
| Translator.PowerRendering | yan-translator.hpp:76-77 | `a ^ b` is translated to `a ** b` |
| Translator.NewRendering | yan-translator.hpp:396-403 | `new` keeps a call as it is and calls anything else with no arguments |
| Translator.StringRoundTrip | yan-translator.hpp:267-272 | in the corrected translation a string literal is written so that the lexer reads it back as one `String` token with the same contents |
| Translator.StringRenderingAsWrittenMisreads | yan-translator.hpp:267-272 | as written the string `\` `n` is translated to `'\n'`, which reads back as a newline, so the written translation differs from the corrected one |
| Translator.Translator.constructor | yan-translator.hpp:6 | a new translator holds the tree at depth 0 |
| Translator.Translator.ToPython | yan-translator.hpp:420-422 | the text is the corrected translation of the whole tree at the current depth, which is left unchanged |
| Translator.Translator.GetIndent | yan-translator.hpp:142-148 | the loop builds the indent of the given depth |
| Translator.Translator.Visit | yan-translator.hpp:8-58 | every node kind yields the corrected translation of that node at the current depth, leaving the depth unchanged |
| Translator.Translator.VisitExpression | yan-translator.hpp:60-112 | a binary node is its operands around the operator's Python text, or the translator stops |
| Translator.Translator.VisitSingleExpression | yan-translator.hpp:114-131 | a unary node is its prefix from the corrected table before its operand, or the translator stops |
| Translator.Translator.VisitIfExpressionNode | yan-translator.hpp:159-180 | `if`, each `elif` and the `else` are written with their bodies one level deeper, and the depth is restored |
| Translator.Translator.VisitElifsAndElse | yan-translator.hpp:167-180 | the `elif` loop and the `else` of `VisitIfExpressionNode`, kept as its own method: each branch is written behind the `if`'s own indent with its body one level deeper, appended in order after the text so far, and the depth is restored |
| Translator.Translator.VisitForExpression | yan-translator.hpp:182-199 | a range loop becomes `for v in range(start, end[, step])`, a collection loop `for v in e`, the body one level deeper, and the depth is restored |
| Translator.Translator.VisitWhileExpression | yan-translator.hpp:201-210 | `while c:` then the body one level deeper, and the depth is restored |
| Translator.Translator.ParameterList | yan-translator.hpp:248-260 | the loop writes the translated parameters separated by `", "` |
| Translator.Translator.VisitFunctionDefinition | yan-translator.hpp:236-265 | `def name(params):` with `__yan_anonymous_func__` for an unnamed function, the body one level deeper |
| Translator.Translator.VisitFunctionCall | yan-translator.hpp:212-234 | the loop yields the call text `Render` defines |
| Translator.Translator.VisitList | yan-translator.hpp:274-298 | a value list in brackets, or a statement block one line per statement behind the indent |
| Translator.Translator.VisitSubscription | yan-translator.hpp:317-328 | target, each index in brackets, then ` = value` if it assigns |
| Translator.Translator.VisitDictionary | yan-translator.hpp:330-360 | entries separated by `", "` inside a call of the dictionary class, with the corrected constructor name and lambda separators |
| Translator.Translator.VisitEntry | yan-translator.hpp:335-350 | one entry is `key: value`, a function value becoming a lambda whose parameters are separated by `", "` (the correction) |
| Translator.Translator.VisitAttribution | yan-translator.hpp:362-385 | target, then each member or recorded call after a dot, then ` = value` if it assigns |
| Translator.Translator.VisitAdvancedVarAccess | yan-translator.hpp:387-394 | the parts' texts concatenated |
| Translator.Translator.VisitNewExpression | yan-translator.hpp:396-403 | the text `Render` gives a `new` node |
| Translator.Translate | yan-translator.hpp:420-422 | translating a tree from a fresh translator gives its corrected translation at depth 0 |
| PySupport.AttrAfterSet | builtins_py/common.py:220-226 | after `o.n = v`, reading `o.n` gives `v` unless `n` is an attribute of the dict type |
| PySupport.AttrShadowedByType | builtins_py/common.py:220-226 | a write to a name the type has is stored as an item but reading the attribute still finds the type's method |
| PySupport.AttrMissing | builtins_py/common.py:222-223 | a read fails exactly when the name is neither stored nor a type attribute, and then with KeyError on that name |
| PySupport.AttrOtherUnchanged | builtins_py/common.py:225-226 | a write changes no other attribute |
| PySupport.YanDict.constructor | builtins_py/common.py:220 | a new object holds the given items and a type that has at least the `dict` methods |
| PySupport.YanDict.GetAttr | builtins_py/common.py:222-223 | an attribute read is the type's attribute, else the item of that name, else KeyError |
| PySupport.YanDict.SetAttr | builtins_py/common.py:225-226 | an attribute write stores the item of that name and nothing else |
| PySupport.YanDict.Call | builtins_py/common.py:228-233 | with `__init__` and `__cls__` present, calls `__init__` once with the object and returns it; otherwise fails naming the object and calls nothing |
| PySupport.ResolveIndex | builtins_py/common.py:67-68 | an index is valid exactly in `[-size, size)`, a negative one counting from the end |
| PySupport.BuiltinAppend | builtins_py/common.py:73-74 | the list gains the value at its end and the call returns None |
| PySupport.BuiltinConcat | builtins_py/common.py:76-77 | the list becomes itself followed by the other list as it was before the call |
| PySupport.BuiltinSet | builtins_py/common.py:67-68 | a valid index replaces that one element; an invalid one raises IndexError and leaves the list unchanged |
| PySupport.BuiltinRemove | builtins_py/common.py:79-80 | a valid index deletes that one element, keeping the others in order; an invalid one raises IndexError and leaves the list unchanged |
| PySupport.WithoutThenInsert | builtins_py/common.py:79-80 | the deleted element put back at its index restores the list |
| PySupport.RemoveMisspelled | builtins_py/common.py:79 | as written no function is named `yan_builtin_impl_remove`; with the common prefix it is defined |
| PySupport.DefinesExtendsAsWritten | builtins_py/common.py:79 | the corrected name set only adds the remove builtin |
| PySupport.RequireAsWrittenFails | builtins_py/common.py:192-203 | as written `require` never succeeds: a name other than a native one raises NameError on `BUILTIN_MODULES` |
| PySupport.CopyAllPresent | builtins_py/common.py:201-203 | copying names the module has binds exactly those names to the module's values |
| PySupport.CopyOverStringAttributes | builtins_py/common.py:202 | once the NameError at :196 is corrected, the loop as written walks the attributes of the name string and fails on the first one before copying anything |
| PySupport.RequireNativeFirst | builtins_py/common.py:193-194 | a native name is rejected whatever modules exist |
| PySupport.RequireTags | builtins_py/common.py:112 | the library tags are exactly the six names, and requiring one leaves the globals unchanged |
| PySupport.RequireBinds | builtins_py/common.py:199-203 | a required module binds each of its attributes and changes no other global |
| PySupport.Require | builtins_py/common.py:192-203 | the loop leaves the globals as the corrected `require` defines them and returns None, or fails leaving them unchanged |
| PySupport.PySplit | builtins_py/common.py:210-214 | a split has at least one piece |
| PySupport.PySplitJoin | builtins_py/common.py:210-214 | the pieces joined with the separator give the name back |
| PySupport.PySplitCount | builtins_py/common.py:210 | there is one more piece than there are separators |
| PySupport.PySplitOfJoin | builtins_py/common.py:210-214 | splitting separator-free parts joined with the separator gives the parts back |
| PySupport.ImportNativeFirst | builtins_py/common.py:207-208 | a native name gets the native-module error before any dot counting |
| PySupport.ImportDots | builtins_py/common.py:210-214 | a name is rejected as an invalid specification exactly when it has two or more dots; with one dot the module and attribute are the pieces around it |
| PySupport.ImportOfEmptySegment | builtins_py/common.py:210-211 | `split('.')` keeps empty segments: `a..b` splits into `a`, an empty piece and `b`, and is rejected as an invalid specification |
| PySupport.ImportOfOneSegment | builtins_py/common.py:213-214 | as written a name without a dot raises IndexError; corrected it names the whole module |
| PySupport.ImportTargetAgrees | builtins_py/common.py:206-214 | the corrected import succeeds and fails exactly where the written one does, except for the IndexError case |
| Consistency.SamePrefix | yan-translator.hpp:217-219 | the translator and the support layer use the same builtin prefix |
| Consistency.BuiltinCallsResolve | yan-translator.hpp:212-234 | a translated call of any builtin other than `remove`, `readFile` and `writeFile` reaches a function the layer defines and exports |
| Consistency.RemoveCallAsWritten | builtins_py/common.py:79 | a translated `remove` call finds no function as written, and finds one with the corrected name |
| Consistency.FileBuiltinsUndefined | yan-lang.hpp:3979-3985 | `readFile` and `writeFile` are translated as builtins but the layer defines no function for them |
| Consistency.DictionaryConstructorAsWritten | yan-translator.hpp:332 | as written a dictionary literal calls a name the layer neither defines nor exports; the corrected name is defined and exported |
| Consistency.DeferTargetUndefined | yan-translator.hpp:416-418 | `defer` is translated to a call of a function the layer does not define |
| Consistency.ImportShapesAgree | builtins_py/common.py:206-214 | on one or two non-empty dot-free segments the layer's corrected `import` names the same module and symbol as the interpreter's |
| Consistency.ImportEmptySegmentsDiffer | builtins_py/common.py:210-214 | `a..b` is a symbol import for the interpreter and an invalid specification for the layer |

## Left out

- The recursive-descent parser (yan-lang.hpp:1214-2458) is not modelled. The translator starts from its own tree datatype instead. So "Unexpected end of input" and the check on `return` outside a function are not covered.
- The tree-walking interpreter (`Interpreter::Visit*`) is left out, apart from the class-literal rule. It works over an aliased pointer graph with a global call-depth counter and a global result cache.
- File and console I/O is left out: `print`, `input`, `readFile`, `writeFile`, the loading of `.yan` module files, and yan-libfs.cpp. For `RestoreEnvVar`, the loop that reads `env.def` and splits its lines at `=` is left out. Only the default-filling loop is modelled.
- Native libraries (`dlopen`, `dlsym`, `Finalize`) are left out. For `require '@m.s'`, only the name shape is modelled.
- `eval`, `yan_pyeval` and `yan_builtin_impl_eval` are left out: they evaluate arbitrary code.
- Randomness, time, process and platform modules are left out: yan-librand.cpp, yan-libtime.cpp, yan-libos.cpp, yan-libinspect.cpp, yan-libsdl2.cpp, and `YanLibs` with its `FileObject` and `_impl_fs_*` functions.
- The drivers are left out: yan-main.cpp, yan-translator.cpp, yan-translator-repl.cpp, build.py and test.py.
- Floating point is left out.
  - Double arithmetic, the math builtins and `ParseFloat` are not modelled.
  - The text a double is printed as is a parameter. This covers `%f`, `%l`, `%m` and `%x` in `Format`, and the `show` function of lists and dictionaries.
  - A translated double literal carries its text.
- Integers are unbounded. The source's 32-bit `int` and `long` overflow, and its `(int)` casts of sizes, are not modelled. Only `LONG_MAX` clamping in the lexer's integer parsing is written out.
- Wide strings are sequences of characters. The UTF-8 conversion is not modelled.
- `StringLib.Find` is not modelled: its body is empty.
- `StringLib.Repeat` is modelled only for its argument checks (`RepeatArguments`). Its result streams the `String` pointer, not the string.
- Builtins.Concat: when a list is concatenated with itself, the model appends a snapshot of the second list. Aliasing is not modelled beyond that.
- Values: `Dictionary` iterates its entries in the order of their addresses. The model keeps the entries in a fixed but unspecified order, and the position of a newly inserted key is a parameter.
- Translator.Render: the parser's `DictionaryNode` holds its entries in a `std::map` keyed by the key nodes' addresses, and `VisitDictionary` writes them in that order. The model's dictionary node is a sequence of entries in a fixed but unspecified order, and the translation follows it.
- Translator.Render: the translation modelled is the corrected one in four places. Each is a Findings row, and the as-written member records the source's behaviour.
  - Unary `-` has the prefix `-` (`Translator.NegationUnsupportedAsWritten`).
  - The parameters of a dictionary-literal lambda are separated by `", "` (`Translator.LambdaParametersRunTogether`).
  - A dictionary literal calls `yan_dict_impl`, not `__yan_dict_impl` (`Consistency.DictionaryConstructorAsWritten`).
  - A string literal uses the representation that escapes the backslash (`Translator.StringRenderingAsWrittenMisreads`).
- `String::Copy` and `String::ToString` are not separate members: a string is a value in the model, so its copy and its text are the string itself.
- Error messages that interpolate values are shortened to their fixed text.
- Symbols.SymbolTable.Get: a result of `nullptr` is modelled as `None`.
- Builtins.EnvVars.Get: the source aborts on a missing key; the model returns `None`.
- TextUtil.SubReplace requires a replacement shorter than the pattern. Its only caller (yan-lang.hpp:347) removes tab characters. A replacement that contains the pattern would make the source loop forever.
- PySupport.YanDict.Call: the effect of `__init__` is foreign code. The model records the call as an `Invocation` and does not run it. The call's own arguments are dropped, as in the source.
- PySupport.YanDict: the set of attributes of the object's type is a parameter, because the special method names depend on the Python version.
- PySupport: dictionary keys other than strings and integers are not modelled. The globals of `require` are the support module's own namespace. `getattr` on a module is a namespace lookup.
- `readFile`, `writeFile` and `__yan_keyword_impl_defer` have no function in the Python layer. `Consistency.FileBuiltinsUndefined` and `Consistency.DeferTargetUndefined` record this. No corrected version is modelled, because the intended behaviour is I/O.
- Python's `import` keeps empty segments, but the interpreter drops them (`Consistency.ImportEmptySegmentsDiffer`). This is recorded, not corrected, because either reading is defensible.

## Findings

| source | as written | input that shows it | evidently intended | confidence | as-written member | corrected member |
|---|---|---|---|---|---|---|
| yan-lang.hpp:3390-3402 | `List * List` copies the receiver and then appends the receiver's and the operand's elements | `[x] * [y]` gives `[x, x, y]` | the concatenation `[x, y]` | not executed | Values.MultipliedByAsWrittenRepeats | Values.ListObject.MultipliedBy |
| yan-lang.hpp:3404-3431 | the guard on a negative index adds the size and then lets `-1` through to `erase` | `[x] - (-2)` erases before the first element | reject every index outside `[-size, size)` | not executed | Values.RemoveIndexAsWrittenLetsMinusOneThrough | Values.ListObject.SubstractedBy |
| yan-lang.hpp:3301-3316 | `Representation` escapes quotes and control characters but not the backslash | the two-character string `\` `n` is written as `'\n'`, which lexes back as a newline | escape the backslash, so the lexer reads the text back as the same string | not executed | Lexer.RepresentationAsWrittenMisreads | Lexer.LexRepresentation |
| yan-translator.hpp:267-272 | `VisitString` writes a string with the representation that does not escape the backslash | a string node holding `\` `n` is translated to `'\n'`, a newline | a literal that reads back as the same string | not executed | Translator.StringRenderingAsWrittenMisreads | Translator.StringRoundTrip |
| yan-lang.hpp:3899-3916 | a method's check subtracts the receiver from an empty parameter list, and argument binding then reads past it | a method with no parameters called with one argument | reject the call with a TypeError | not executed | Arity.MethodWithoutParametersOverreads | Arity.MethodCheckSpec |
| yan-lang.hpp:3806 | a method whose only parameter is mutable binds the receiver to it, and `Function::PopulateArguments` then loops up to `argNames.size() - 1` on an empty list, which wraps around | a method `fn (_x_)` called with any arguments reads `argNames[0]` and `args[0]` | reject a mutable receiver with a RuntimeError, like the other misplaced mutable parameters | not executed | Arity.MethodWithMutableReceiverOverreads | Arity.MethodCheckSpec |
| yan-lang.hpp:4337-4367 | `remove` checks only that the index is non-negative | `remove([], 0)` erases past the end | also require index < size | not executed | Builtins.RemoveFromEmptyList | Builtins.Remove |
| yan-lang.hpp:4476-4504 | `set` checks only that the index is non-negative | `set([x], 1, v)` writes past the end | also require index < size | not executed | Builtins.SetPastTheEnd | Builtins.Set |
| yan-translator.hpp:114-131 | the unary table has `+` and `not` but no `-` | `-x` stops the translator | `-x` translates to `-x` | not executed | Translator.NegationUnsupportedAsWritten | Translator.UnaryPrefixExtends |
| yan-translator.hpp:337-345 | the parameters of a dictionary-literal lambda are written with no separator | `{ f: fn (a, b) -> … }` gives `lambda ab: …` | `lambda a, b: …`, as in a `def` | not executed | Translator.LambdaParametersRunTogether | Translator.LambdaParametersAgreeOnOne |
| yan-translator.hpp:332 | a dictionary literal becomes a call of `__yan_dict_impl` | any dictionary literal | a call of the layer's class `yan_dict_impl` | not executed | Consistency.DictionaryConstructorAsWritten | Translator.Translator.VisitDictionary |
| builtins_py/common.py:79 | the remove builtin is named `yan_builitin_impl_remove` | a translated `remove(l, 0)` finds no function | `yan_builtin_impl_remove` | not executed | Consistency.RemoveCallAsWritten | PySupport.DefinesExtendsAsWritten |
| builtins_py/common.py:196 | `require` reads the unqualified `BUILTIN_MODULES` | `require('string')` raises NameError | `YanLibs.BUILTIN_MODULES` | not executed | PySupport.RequireAsWrittenFails | PySupport.RequireTags |
| builtins_py/common.py:202 | `require` copies the attributes named by `dir(module)`, the attributes of the name string | once the NameError at :196 is corrected, `require('m')` for a module without `__add__` raises AttributeError before it copies anything | `dir(mod)`, the imported module's attributes | not executed | PySupport.CopyOverStringAttributes | PySupport.RequireBinds |
| builtins_py/common.py:213-214 | `import` takes `split('.')[1]` without checking that a dot exists | `import('m')` raises IndexError | a name without a dot names the whole module | not executed | PySupport.ImportOfOneSegment | PySupport.ImportTargetAgrees |
