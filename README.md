# FliSys page helper — a Dafny model

FliSys is a PHP scaffold whose class `flisys` collects the stylesheets and scripts
a page needs and writes the page's HTML head and the end of its body. Its helper
`Util::hasContentString` checks that a string has some content.

This project models these two parts:

- `php.dfy`, module `Php`: the PHP built-ins the core relies on. A nullable argument is an
  `Option`. PHP's `trim` strips space, tab, line feed, carriage return, NUL and vertical tab
  from both ends. `Trim`'s own contract says only that the result neither starts nor ends
  with such a character. `TrimSpan` adds where the result sits in the input: everything
  before and after it is stripped characters. `TrimUnique` shows that these facts together
  fix the result.
- `util.dfy`, module `Util`: `HasContentString` and what it means.
- `general.dfy`, module `General`:
  - the filename validators of `addCSS` and `addJS`;
  - the exact text each print method writes;
  - class `FliSys`, with fields `cssFiles`, `jsFiles` and `output`.

  The add methods append to the lists in place. The print methods append to `output`, one
  entry per `echo`, with loops that follow the source's `foreach`.

Choices made in the model:

- Whether a file exists is modelled as a set of names present in the stylesheet directory
  or the script directory. The add methods take that set as a parameter.
- PCRE's `$` without the D modifier also matches just before a final line feed. The model
  keeps this (`PregMatchAsset`). `ValidCssNameShape` and `ValidJsNameShape` show it never
  matters, because the name is trimmed before it is matched.
- `addCSS` requires at least 5 characters and `addJS` at least 4. Both tests are redundant:
  any name the pattern accepts already passes them (`CssLengthCheckRedundant`,
  `JsLengthCheckRedundant`).
- The initialiser at `src/include/inc_general.php:76` is spelled `__contruct`, so PHP never
  runs it when an object is created. A new object therefore starts with both lists empty,
  and `basic.css` is not registered when the object is created. The model's constructor
  does the same. `__contruct` is still a public method that a caller could invoke by name;
  the model does not include that call.
- `printHeader` passes `$add_semantic` only to `printCSS`. It calls `printJS(true)` with the
  default arguments. So the jQuery and Semantic UI script tags are written in the head even
  when `$add_semantic` is false (`HeaderLayout`).
- With the default minimum of 0, `hasContentString` accepts every non-null string, even
  an empty or all-blank one (`DefaultMinimumAcceptsAnyString`). Its doc comment
  (`src/include/inc_util.php:44`) speaks of checking that a string has some content; the
  code checks only the minimum, and the model follows the code.
- If `jquery.min.js` is also registered as a head script, the head holds its tag twice: once
  as the framework tag and once as the registered one. The model keeps this.

## Model

| member | source | states |
|---|---|---|
| `Php.Trim` | src/include/inc_util.php:50 | the result of `trim` neither starts nor ends with a stripped character and is no longer than the input |
| `Php.TrimSpan` | src/include/inc_util.php:50 | `trim($s)` is an infix `s[i..j]`, and every character before `i` and from `j` on is a stripped character |
| `Php.TrimUnique` | src/include/inc_util.php:50 | any infix bordered only by stripped characters, and not itself starting or ending with one, is `trim($s)`: `Trim`'s contract together with `TrimSpan`'s border facts determines `trim` |
| `Php.TrimIdempotent` | src/include/inc_util.php:50 | `trim(trim($s)) == trim($s)` |
| `Util.HasContentString` | src/include/inc_util.php:49-52 | null gives false for any minimum; a minimum of 0 or less gives true exactly for non-null strings |
| `Util.HasContentStringInfix` | src/include/inc_util.php:50 | for a non-null string: true exactly when the part left after stripping both ends has at least `min_chars` characters |
| `Util.DefaultMinimumAcceptsAnyString` | src/include/inc_util.php:49-51 | with the default minimum every non-null string has content, including "" and blanks |
| `Util.HasContentStringMonotone` | src/include/inc_util.php:50 | true for a minimum `m` implies true for every `m' <= m` |
| `Util.HasContentStringTrimInvariant` | src/include/inc_util.php:50 | surrounding whitespace does not change the answer: same result for `$s` and `trim($s)` |
| `General.PregMatchAsset` | src/include/inc_general.php:93 | a string the anchored filename pattern matches is longer than the extension: at least one name character comes before it |
| `General.IsValidCssName` | src/include/inc_general.php:92-93 | `addCSS`'s first test; a name that passes it is not null |
| `General.IsValidJsName` | src/include/inc_general.php:115-117 | `addJS`'s first test; a name that passes it is not null |
| `General.PregMatchOnTrimmed` | src/include/inc_general.php:93 | on a trimmed string the pattern matches exactly when the whole string is name characters followed by the extension |
| `General.ValidNameShape` | src/include/inc_general.php:92-93 | for any extension made of name characters: length test plus pattern accept exactly the non-null names whose trimmed form is an asset name; the pattern alone implies the length test; accepted names have only name characters |
| `General.CssLengthCheckRedundant` | src/include/inc_general.php:92-93 | a name whose trimmed form matches the `.css` pattern always passes the 5-character test |
| `General.JsLengthCheckRedundant` | src/include/inc_general.php:115-117 | a name whose trimmed form matches the `.js` pattern always passes the 4-character test |
| `General.ValidCssNameShape` | src/include/inc_general.php:92-93 | `addCSS`'s first test passes exactly for non-null names whose trimmed form is `[a-zA-Z0-9_.-]+\.css`; such names have only those characters, so no surrounding whitespace |
| `General.ValidJsNameShape` | src/include/inc_general.php:115-117 | `addJS`'s first test passes exactly for non-null names whose trimmed form is `[a-zA-Z0-9_.-]+\.js`; such names have only those characters |
| `General.CssFileLineIsNotSemantic` | src/include/inc_general.php:137-145 | a registered stylesheet's link line never equals the framework stylesheet's |
| `General.CssLinesLayout` | src/include/inc_general.php:134-147 | `printCSS` writes the framework stylesheet first if and only if `$add_semantic` is true, then one link per registered stylesheet, in registration order |
| `General.HeadScriptsAreUnflagged` | src/include/inc_general.php:171-173 | with `$to_header` true the loop writes exactly the unflagged scripts, as head tags, in registration order |
| `General.FooterScriptsAreFlagged` | src/include/inc_general.php:174-176 | with `$to_header` false the loop writes exactly the flagged scripts, as body tags, in registration order |
| `General.ScriptsSplitOnce` | src/include/inc_general.php:171-177 | head part and footer part together hold every registered script exactly as often as it was registered |
| `General.HeaderLayout` | src/include/inc_general.php:185-207 | the head is: preamble, stylesheet lines, jQuery tag, Semantic UI script tag (whatever `$add_semantic` is), unflagged scripts in order, opening of the body |
| `General.FooterLayout` | src/include/inc_general.php:214-225 | the footer is the flagged scripts in order, then the body closes; it holds neither framework script tag |
| `General.FliSys.constructor` | src/include/inc_general.php:62-64 | a new object has both lists empty and nothing written, and satisfies the object invariant |
| `General.FliSys.AddCSS` | src/include/inc_general.php:90-103 | returns true exactly when the name passes the first test and its trimmed form is in the stylesheet directory; on true appends the trimmed name (no de-duplication), on false changes nothing; only `cssFiles` may change; keeps the object invariant |
| `General.FliSys.AddJS` | src/include/inc_general.php:113-127 | returns true exactly when the name passes the first test and its trimmed form is in the script directory; on true appends (trimmed name, flag), so the name joins the end of the part its flag selects (head or footer) and the other part is unchanged; on false changes nothing; only `jsFiles` may change; keeps the object invariant |
| `General.FliSys.PushCss` | src/include/inc_general.php:99 | the append adds the name at the end of the stylesheet list; an asset name keeps the object invariant |
| `General.FliSys.PushJs` | src/include/inc_general.php:123 | the append adds the script at the end of the list; its name joins the end of the part its flag selects and the other part is unchanged; an asset name keeps the object invariant |
| `General.FliSys.PrintCSS` | src/include/inc_general.php:134-147 | appends exactly the framework stylesheet line, if asked, then one link per registered stylesheet |
| `General.FliSys.PrintJS` | src/include/inc_general.php:156-178 | appends the jQuery and Semantic UI tags when writing the head and asked for, then the loop's lines |
| `General.FliSys.PrintJSFiles` | src/include/inc_general.php:170-177 | appends, in registration order, the head tag of each unflagged script (head) or the body tag of each flagged script (footer) |
| `General.FliSys.PrintHeader` | src/include/inc_general.php:185-208 | appends exactly the header text: preamble, `printCSS($add_semantic)`, `printJS(true)`, opening of the body |
| `General.FliSys.PrintFooter` | src/include/inc_general.php:214-228 | appends exactly `printJS()`'s footer scripts and the closing of the body |

## Left out

- File-system calls (`file_exists`, `realpath`, `dirname`): the stylesheet and script directories are sets of present names. `file_exists` is also true for a directory of that name, and a failing `realpath` is not modelled.
- `echo` writes to the response stream. Here each `echo` appends one string to the `output` field.
- `DIRECTORY_SEPARATOR` is fixed to "/".
- A PHP string is a byte string. It is modelled as one `char` per byte, so `strlen` counts characters, and multibyte encodings are not modelled.
- PCRE in general is not modelled: only the two anchored filename patterns are.
- PHP's dynamic type checks are not modelled: `is_bool($to_bottom)`, `is_array` of the lists, `intval($min_chars)`, and non-string names. Dafny's types make them always hold.
- The unused `$db` field and the constructor argument that would fill it are not modelled.
- The unused `$semanticJS` field is not modelled: the source writes that script's name as a literal.
- The private path fields are constants, because nothing reassigns them.
- Choosing a language from the browser's preferences is not part of this model: neither source file implements it.
- templates/template_class.php is not part of this model: it is a scaffold with placeholder members.
- A caller invoking the misspelled `__contruct` by name (which would register `basic.css` if it exists) is not modelled: it is a plain public method that nothing in the core calls.
