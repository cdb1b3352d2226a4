# sphinx_rosmsgs: the ROS interface-file parser and message indexer, in Dafny

sphinx_rosmsgs is a Sphinx extension that documents ROS message (`.msg`),
service (`.srv`) and action (`.action`) files. This project models its
core:

- **Line classification.** Each line of an interface file becomes one of
  four kinds of token:
  - a comment (`CommentField`);
  - a field definition (`MessageField`, read with its regular expression);
  - a `---` separator (`TripleDashField` and its two variants);
  - an empty line (`EmptyLineField`).
- **The block state machine.** `BlockParser.append` turns the token stream
  of one block into entries. It does so in three ways:
  - it merges runs of comments;
  - it attaches a comment to the definition right below it;
  - it locks on a separator.

  `MessageParser` is an older copy of the same machine. It adds `unlock`
  and rendering.
- **The file driver.** `FileParser.parse` routes each line of a file to the
  request, response or feedback block. Each separator moves it to the next
  block, and the number of separators seen decides the parsed type.
- **The message indexer.** `MessageIndexer` walks a list of package roots.
  It reads each root's `package.xml` name and indexes every interface file
  as `package/Name`. The name comes from the pattern
  `(([a-zA-Z_0-9-\.]+)\/)+(?P<name>[a-zA-Z_0-9]+)\.ext`, applied with
  Python's `re.match`.

The files follow the program's own structure:

| file | contents |
|---|---|
| `strings.dfy` | character classes; `Span` (greedy runs); `rstrip`; `splitlines` and `"\n".join` |
| `comment_field.dfy`, `empty_line_field.dfy`, `triple_dash_field.dfy` | the three simple fields |
| `message_field.dfy` | the field regex, Python's greedy and backtracking choice of match, the groups, and the field record |
| `tokens.dfy` | the token and field values the other modules share |
| `block_parser.dfy` | the block state machine. It is a specification function `Step` plus the `BlockParser` class, whose `Append` is proved against `Step`. |
| `message_parser.dfy` | the `MessageParser` class on the same `Step` |
| `file_parser.dfy` | the `FileParser` class. Its `Parse` loop is proved against a fold `Run` of lines into three block states, and lemmas relate `Run` to a per-block routing of tokens. |
| `message_indexer.dfy` | the name pattern; the index as folds over roots, extensions and files; the `MessageIndexer` class, whose loops are proved against those folds |

The file system and the XML parser are parameters:

- A file system is a map from path to the lines `splitlines` would give.
- An indexed environment is a map from each existing root to what
  `ElementTree` reads from its `package.xml`, together with the lists that
  `glob` returns for each extension.

Python's `re` semantics are modelled exactly:

- `\s` is `str.isspace`.
- `.` is any character except `\n`.
- `$` matches at the end or before a final `\n`.
- Quantifiers are greedy, with backtracking.

For the field regex, `MessageFields.MatchIsPythonsChoice` proves that the
modelled match exists exactly when some match exists, and is the one
Python's backtracking prefers. For the name pattern,
`MessageIndexers.LocateIsPythonsMatch` proves the same.

Behaviour of the code that the model keeps as it is:

- **Definition lines keep `MessageField.parse` as written.** The file
  driver builds fields with the written constructor, so `int32[] data` is
  a list of size `""` that is not variable-length (see Findings). The
  intended constructor is modelled beside it and is not used by the driver.
- **`definitions` of a block.** It lists only the definitions that directly
  follow a comment, because only that branch of `append` fills
  `_message_fields`.
- **A comment directly above a definition.** It becomes that definition's
  text and is not part of the header, even when it is the first line of
  the file.
- **A repeated `FileParser.parse`.** It returns `None`, not the parser.
- **`MessageIndexer.parse` with an unknown name.** It returns `None`; it
  does not raise.
- **The paths the index stores.** They are the strings `glob` produced, not
  absolute paths.
- **Names the pattern rejects.** A file whose name the pattern does not
  match raises. Examples: a root given as an absolute path, and a stem
  containing `-`.

## Model

| member | source | states |
|---|---|---|
| CommentFields.Parse | sphinx_rosmsgs/file_parser/comment_field.py:7-24 | a parsed comment holds exactly one line |
| CommentFields.ParseAcceptsIff | sphinx_rosmsgs/file_parser/comment_field.py:7-13 | a line is a comment iff it starts with `#` and has no newline from its third character to its second-to-last (a newline right after `#` is taken by `\s`, a final one by `$`) |
| CommentFields.ParseOneLine | sphinx_rosmsgs/file_parser/comment_field.py:7-24 | on a line without newline, the comment is the rest after `#` and at most one whitespace character, right-stripped |
| CommentFields.Empty | sphinx_rosmsgs/file_parser/comment_field.py:15-22 | the empty comment has no lines |
| CommentFields.Join | sphinx_rosmsgs/file_parser/comment_field.py:26-28 | joining keeps the first comment's lines, then the second's |
| CommentFields.Text | sphinx_rosmsgs/file_parser/comment_field.py:30-32 | an empty comment renders as the empty string |
| CommentFields.TextOfJoin | sphinx_rosmsgs/file_parser/comment_field.py:26-32 | the text of two joined comments is their texts separated by one line separator |
| CommentFields.TextRoundTrip | sphinx_rosmsgs/file_parser/comment_field.py:30-32 | splitting a comment's text at line separators gives back its lines |
| Strings.RStrip | sphinx_rosmsgs/file_parser/comment_field.py:24 | the result is a prefix of the input that is empty or ends in a non-space character, and only whitespace was removed |
| EmptyLineFields.Parse | sphinx_rosmsgs/file_parser/empty_line_field.py:6-13 | parsing always gives the empty-line field |
| EmptyLineFields.ParseIgnoresItsInput | sphinx_rosmsgs/file_parser/empty_line_field.py:7-13 | the result does not depend on the line, which defaults to "" |
| TripleDashFields.Parse | sphinx_rosmsgs/file_parser/triple_dash_field.py:6-12 | accepts exactly the lines of `---` followed only by whitespace, and returns the variant it was asked for |
| TripleDashFields.MatchesAllSpace | sphinx_rosmsgs/file_parser/triple_dash_field.py:6 | `^-{3}\s*$` matches iff the line is `---` followed only by whitespace |
| TripleDashFields.MatchesIff | sphinx_rosmsgs/file_parser/triple_dash_field.py:6 | the pattern matches iff `---` is followed by a whitespace run at whose end `$` holds |
| TripleDashFields.Str | sphinx_rosmsgs/file_parser/triple_dash_field.py:17-30 | each variant renders as `--- k ---` with its own digit 0, 1 or 2 |
| TripleDashFields.VariantsAcceptSameLines | sphinx_rosmsgs/file_parser/triple_dash_field.py:21-30 | the subclasses inherit `parse`: every variant accepts the same lines |
| MessageFields.Match | sphinx_rosmsgs/file_parser/message_field.py:14-20 | a found split is a match of the field regex |
| MessageFields.MatchIsPythonsChoice | sphinx_rosmsgs/file_parser/message_field.py:14 | a match is found iff one exists, and the one found is preferred over every other by greedy matching with backtracking |
| MessageFields.ParseAcceptsIff | sphinx_rosmsgs/file_parser/message_field.py:14-20 | both parses accept a line iff the field regex matches it |
| MessageFields.MatchValueAfterSpaces | sphinx_rosmsgs/file_parser/message_field.py:14 | the greedy `\s*` after `=` leaves a default value that does not start with whitespace |
| MessageFields.GroupsOf | sphinx_rosmsgs/file_parser/message_field.py:22-41 | `is_list` participates iff the brackets matched, and then `list_size` does too; `is_equal` and `value` participate together |
| MessageFields.FromGroupsAsWritten | sphinx_rosmsgs/file_parser/message_field.py:22-42 | as written: type and name are the groups; list iff `is_list`; variable iff `list_size` is None; size is the `list_size` text whenever the brackets matched (so `""` for `[]`), else 0; default iff `is_equal`, with `value` as the default, else ""; empty text |
| MessageFields.AsWrittenNeverVariable | sphinx_rosmsgs/file_parser/message_field.py:33-38 | as written, no parsed field is ever variable-length |
| MessageFields.FromGroups | sphinx_rosmsgs/file_parser/message_field.py:22-42 | corrected: a list is variable-length iff its size group is empty, and then has size 0; a fixed list has its digits as size; type, name, default and text as written |
| MessageFields.EmptyBracketsExample | sphinx_rosmsgs/file_parser/message_field.py:33-38 | `int32[] data` parses as written to a list of size `""` that is not variable-length, and with the intended constructor to a variable-length list of size 0 |
| MessageFields.ParseAsWritten | sphinx_rosmsgs/file_parser/message_field.py:16-20 | returns a field iff the regex matches |
| MessageFields.Parse | sphinx_rosmsgs/file_parser/message_field.py:16-20 | returns a field iff the regex matches (with the corrected variable flag) |
| MessageFields.ParseAgreesWithAsWritten | sphinx_rosmsgs/file_parser/message_field.py:29-38 | the corrected parse differs from the written one only in `is_variable` and `size`, and renders the same type text |
| MessageFields.ParseWellFormed | sphinx_rosmsgs/file_parser/message_field.py:14-42 | every parsed field has token-shaped type and name, digit-only size, and a value not starting with whitespace |
| MessageFields.CanonicalLineRoundTrip | sphinx_rosmsgs/file_parser/message_field.py:14-42 | printing a well-formed field as a definition line and parsing it gives the field back |
| MessageFields.CanonicalLineNormalForm | sphinx_rosmsgs/file_parser/message_field.py:14-42 | re-printing and re-parsing any parsed line gives the same field |
| MessageFields.SetText | sphinx_rosmsgs/file_parser/message_field.py:76-78 | only a comment replaces the text, and nothing else of the field changes |
| MessageFields.TypeText | sphinx_rosmsgs/file_parser/message_field.py:80-88 | the type text starts with the type and is longer exactly for lists |
| MessageFields.DefaultText | sphinx_rosmsgs/file_parser/message_field.py:90-95 | empty without a default, otherwise `= ` followed by the default |
| MessageFields.Str | sphinx_rosmsgs/file_parser/message_field.py:97-98 | the rendering is the type text, the name and a space; then the default text followed by ` (\n`; then the attached comment's text followed by `\n)\n`, and nothing else |
| BlockParsers.Initial | sphinx_rosmsgs/file_parser/block_parser.py:16-20 | a new block has no entries or definitions, is unlocked, and its previous token is not a comment |
| BlockParsers.Register | sphinx_rosmsgs/file_parser/block_parser.py:50 | the name maps to the field; the name list gains the name only when it is new (dict insertion order) |
| BlockParsers.Step | sphinx_rosmsgs/file_parser/block_parser.py:22-61 | each transition keeps the block invariant: every registered definition is an entry, and the previous token is the last entry when it is a comment |
| BlockParsers.Feed | sphinx_rosmsgs/file_parser/block_parser.py:22-61 | feeding a token sequence keeps the block invariant |
| BlockParsers.LockedFeedIgnored | sphinx_rosmsgs/file_parser/block_parser.py:41-42 | a locked block ignores every later token |
| BlockParsers.CommentsMerge | sphinx_rosmsgs/file_parser/block_parser.py:43-45 | a comment after a comment extends the last entry's lines; the length does not change |
| BlockParsers.CommentAttaches | sphinx_rosmsgs/file_parser/block_parser.py:46-52 | a definition after a comment replaces that comment entry, carries it as text, and is registered under its name |
| BlockParsers.BlankOnlyResets | sphinx_rosmsgs/file_parser/block_parser.py:53-55 | an empty line stores nothing and ends comment adjacency |
| BlockParsers.SeparatorLocks | sphinx_rosmsgs/file_parser/block_parser.py:56-59 | a separator locks the block and stores nothing |
| BlockParsers.OthersAppended | sphinx_rosmsgs/file_parser/block_parser.py:60-61 | a comment or definition not after a comment is appended as it is |
| BlockParsers.OnlyCommentedDefinitionsRegistered | sphinx_rosmsgs/file_parser/block_parser.py:46-52 | the definitions map changes only for a definition right after a comment, which is stored with that comment |
| BlockParsers.FeedLength | sphinx_rosmsgs/file_parser/block_parser.py:22-61 | the number of entries grows by at most one per token |
| BlockParsers.Get | sphinx_rosmsgs/file_parser/block_parser.py:72-86 | integer keys index the entries with Python's negative indexing or raise IndexError; a name gives its definition or raises KeyError; other keys give None |
| BlockParsers.DefinitionsOf | sphinx_rosmsgs/file_parser/block_parser.py:104-113 | the definitions, in the order their names were first registered |
| BlockParsers.DefinitionsAreStored | sphinx_rosmsgs/file_parser/block_parser.py:104-113 | one definition per registered name, each an entry of the block and filed under its own name |
| BlockParsers.HeaderOf | sphinx_rosmsgs/file_parser/block_parser.py:97-102 | the header is the longest prefix of entries containing no definition |
| BlockParsers.BlockParser.constructor | sphinx_rosmsgs/file_parser/block_parser.py:16-20 | the object starts in the initial state |
| BlockParsers.BlockParser.Append | sphinx_rosmsgs/file_parser/block_parser.py:22-61 | the object's new state is `Step` of the old one |
| BlockParsers.BlockParser.Length | sphinx_rosmsgs/file_parser/block_parser.py:63-70 | the integer keys that `__getitem__` accepts are exactly those from -len to len-1 |
| BlockParsers.BlockParser.GetItem | sphinx_rosmsgs/file_parser/block_parser.py:72-86 | an integer key finds an entry iff it is from -len to len-1, counting negative keys from the end, and otherwise raises IndexError; a name gives its registered definition or KeyError; any other key gives None |
| BlockParsers.BlockParser.Header | sphinx_rosmsgs/file_parser/block_parser.py:88-102 | the entries before the first definition |
| BlockParsers.BlockParser.Definitions | sphinx_rosmsgs/file_parser/block_parser.py:104-113 | the stored definitions in registration order |
| MessageParsers.ClassName | sphinx_rosmsgs/file_parser/message_parser.py:60-61 | an entry is named MessageField iff it is a definition, CommentField iff a comment |
| MessageParsers.DirectiveOutputOf | sphinx_rosmsgs/file_parser/message_parser.py:60-61 | one pair per entry, in order, of its class name and the entry |
| MessageParsers.Texts | sphinx_rosmsgs/file_parser/message_parser.py:64 | the rendering of each entry, in order |
| MessageParsers.StrOf | sphinx_rosmsgs/file_parser/message_parser.py:63-65 | no entries render as "", one entry as its own rendering |
| MessageParsers.StrOfAppend | sphinx_rosmsgs/file_parser/message_parser.py:63-65 | appending an entry adds its rendering after one newline |
| MessageParsers.UnlockReenables | sphinx_rosmsgs/file_parser/message_parser.py:48-49 | after unlocking, a definition is appended again |
| MessageParsers.MessageParser.constructor | sphinx_rosmsgs/file_parser/message_parser.py:8-12 | the object starts in the initial state |
| MessageParsers.MessageParser.Append | sphinx_rosmsgs/file_parser/message_parser.py:14-46 | the new state is `Step` of the old one: the same machine as the block parser |
| MessageParsers.MessageParser.Unlock | sphinx_rosmsgs/file_parser/message_parser.py:48-49 | only the lock is cleared |
| MessageParsers.MessageParser.Length | sphinx_rosmsgs/file_parser/message_parser.py:51-58 | the integer keys `__getitem__` accepts are exactly those from -len to len-1 |
| MessageParsers.MessageParser.GetItem | sphinx_rosmsgs/file_parser/message_parser.py:54-58 | an integer key finds an entry iff it is from -len to len-1, counting negative keys from the end, and otherwise raises IndexError; a name gives its registered definition or KeyError; any other key gives None |
| MessageParsers.MessageParser.DirectiveOutput | sphinx_rosmsgs/file_parser/message_parser.py:60-61 | one pair per entry, in order, of its class name and the entry |
| MessageParsers.MessageParser.Str | sphinx_rosmsgs/file_parser/message_parser.py:63-65 | the rendering of the entries joined by newlines (`StrOf`): "" for no entries, an entry's own rendering for one, and for more the rendering of all but the last, a newline, then the last's |
| MessageParsers.StrOfLast | sphinx_rosmsgs/file_parser/message_parser.py:63-65 | with two or more entries the rendering is that of all but the last, a newline, and the last entry's |
| MessageParsers.MessageParser.Header | sphinx_rosmsgs/file_parser/message_parser.py:67-74 | the entries before the first definition |
| MessageParsers.MessageParser.Definitions | sphinx_rosmsgs/file_parser/message_parser.py:76-78 | the stored definitions in registration order |
| FileParsers.Classify | sphinx_rosmsgs/file_parser/file_parser.py:62-84 | a classified line never yields a separator token, and a separator advances only from the first two blocks |
| FileParsers.ClassifyPrecedence | sphinx_rosmsgs/file_parser/file_parser.py:69-84 | a comment wins over a definition (the field `MessageField.parse` builds as written), which wins over a separator; a line is an empty line iff nothing else applies |
| FileParsers.ThirdSeparatorIsEmpty | sphinx_rosmsgs/file_parser/file_parser.py:77-84 | `---` advances from blocks 0 and 1, and is an empty line in block 2 |
| FileParsers.Start | sphinx_rosmsgs/file_parser/file_parser.py:36-38 | three initial blocks with block 0 current |
| FileParsers.StepLine | sphinx_rosmsgs/file_parser/file_parser.py:56-59 | one line keeps three valid blocks and a current block of at most 2 |
| FileParsers.RunFrom | sphinx_rosmsgs/file_parser/file_parser.py:56-59 | the loop over lines keeps three valid blocks and a current block of at most 2 |
| FileParsers.Run | sphinx_rosmsgs/file_parser/file_parser.py:56-59 | parsing a file's lines keeps three valid blocks and a current block of at most 2 |
| FileParsers.Separators | sphinx_rosmsgs/file_parser/file_parser.py:77-83 | at most two separators are counted |
| FileParsers.CurrentCountsSeparators | sphinx_rosmsgs/file_parser/file_parser.py:56-83 | the current block after parsing is the number of separators that advanced it |
| FileParsers.BlockFollowsRouting | sphinx_rosmsgs/file_parser/file_parser.py:56-59 | block k is the block machine fed exactly the tokens of the lines read while k was current |
| FileParsers.NeverLocked | sphinx_rosmsgs/file_parser/file_parser.py:77-83 | no block of a file parser is ever locked, because the separator token is never forwarded |
| FileParsers.StepStaysUnlocked | sphinx_rosmsgs/file_parser/block_parser.py:41-61 | only a separator locks a block |
| FileParsers.SeparatorStoresNothing | sphinx_rosmsgs/file_parser/file_parser.py:56-83 | a separator line leaves every block unchanged and advances the current block by one |
| FileParsers.ParsedTypeOf | sphinx_rosmsgs/file_parser/file_parser.py:164-165 | 0, 1 and 2 map to "message", "service" and "action", both ways |
| FileParsers.FileParser.constructor | sphinx_rosmsgs/file_parser/file_parser.py:31-39 | keeps name, path and declared type; not parsed; three fresh initial blocks |
| FileParsers.FileParser.ParseLine | sphinx_rosmsgs/file_parser/file_parser.py:62-84 | returns the classified token (a definition is the field `MessageField.parse` builds as written), or nothing and advances the current block on a separator |
| FileParsers.FileParser.ParseNext | sphinx_rosmsgs/file_parser/file_parser.py:56-59 | one iteration of the loop: the new state is `StepLine` of the old |
| FileParsers.FileParser.Parse | sphinx_rosmsgs/file_parser/file_parser.py:41-60 | a second call returns None and changes nothing; a path that is not a path raises TypeError and a missing file raises, both after the flag is set; otherwise the content is the file's lines and the state is `Run` of them, and it returns self |
| FileParsers.FileParser.Name | sphinx_rosmsgs/file_parser/file_parser.py:86-94 | the name given at construction |
| FileParsers.FileParser.Request | sphinx_rosmsgs/file_parser/file_parser.py:96-108 | block 0 once parsed; an error before |
| FileParsers.FileParser.Message | sphinx_rosmsgs/file_parser/file_parser.py:110-122 | the same as `request` |
| FileParsers.FileParser.Response | sphinx_rosmsgs/file_parser/file_parser.py:124-136 | block 1 once parsed; an error before |
| FileParsers.FileParser.Feedback | sphinx_rosmsgs/file_parser/file_parser.py:138-150 | block 2 once parsed; an error before |
| FileParsers.FileParser.ParsedType | sphinx_rosmsgs/file_parser/file_parser.py:152-165 | the type named by the current block once parsed; an error before |
| MessageIndexers.ExtensionKinds | sphinx_rosmsgs/message_indexer.py:9-13 | three extensions zipped with the three kinds, in order |
| MessageIndexers.Ends | sphinx_rosmsgs/message_indexer.py:32 | the ends of the greedy `seg/` groups are strictly increasing and inside the path |
| MessageIndexers.EndsAreChains | sphinx_rosmsgs/message_indexer.py:32 | every group end found is the end of a `(seg/)+` prefix |
| MessageIndexers.ChainsAreEnds | sphinx_rosmsgs/message_indexer.py:32 | every end of a `(seg/)+` prefix is found |
| MessageIndexers.TryLast | sphinx_rosmsgs/message_indexer.py:81 | a result starts at a group end and is a maximal name run followed by the extension |
| MessageIndexers.TryLastFinds | sphinx_rosmsgs/message_indexer.py:32 | backtracking from the last group finds a name at the latest feasible start |
| MessageIndexers.Locate | sphinx_rosmsgs/message_indexer.py:81 | a located name is a match of the pattern |
| MessageIndexers.LocateIsPythonsMatch | sphinx_rosmsgs/message_indexer.py:32 | whenever the pattern matches, a name is located, at the latest start and as the maximal run, which is the match `re.match` picks |
| MessageIndexers.NameOf | sphinx_rosmsgs/message_indexer.py:81-84 | a name found is a non-empty run of name characters |
| MessageIndexers.AbsolutePathFails | sphinx_rosmsgs/message_indexer.py:81-83 | a path that starts with `/` has no name |
| MessageIndexers.RelativeMessagePath | sphinx_rosmsgs/message_indexer.py:84 | `msg/Foo.msg`, as `glob` lists it under the root `.`, has the name `Foo` |
| MessageIndexers.DashInStemFails | sphinx_rosmsgs/message_indexer.py:81-83 | `msg/my-msg.msg` has no name, so indexing it raises |
| MessageIndexers.PackageName | sphinx_rosmsgs/message_indexer.py:54-58 | the name element's text, or "None" when the element is empty |
| MessageIndexers.NamesOf | sphinx_rosmsgs/message_indexer.py:79-81 | the name found in each file, in order |
| MessageIndexers.RegisterNames | sphinx_rosmsgs/message_indexer.py:80-86 | registering files keeps both maps on the same keys with kinds among the three |
| MessageIndexers.RegisterFiles | sphinx_rosmsgs/message_indexer.py:79-86 | registering one extension's files keeps the index consistent |
| MessageIndexers.RegisterFrom | sphinx_rosmsgs/message_indexer.py:76-86 | registering the extensions in order keeps the index consistent |
| MessageIndexers.IndexRoot | sphinx_rosmsgs/message_indexer.py:64-86 | indexing one root keeps the index consistent |
| MessageIndexers.IndexRoots | sphinx_rosmsgs/message_indexer.py:42-44 | indexing the roots in order keeps the index consistent |
| MessageIndexers.FailedRootAddsNothing | sphinx_rosmsgs/message_indexer.py:46-74 | a missing root or unreadable `package.xml` raises before anything is registered |
| MessageIndexers.FirstUnparsableRaises | sphinx_rosmsgs/message_indexer.py:80-83 | the first file without a name raises, naming that file, after the files before it were registered |
| MessageIndexers.AllNamedCompletes | sphinx_rosmsgs/message_indexer.py:80-86 | when every file has a name, nothing raises |
| MessageIndexers.LastWins | sphinx_rosmsgs/message_indexer.py:84-86 | a key maps to the last file registered under it, with the kind of that extension |
| MessageIndexers.KeyInjective | sphinx_rosmsgs/message_indexer.py:84 | within one package, different names give different keys |
| MessageIndexers.KeepsOtherKeys | sphinx_rosmsgs/message_indexer.py:85-86 | keys no file produces are left as they were |
| MessageIndexers.OnlyFileKeysAdded | sphinx_rosmsgs/message_indexer.py:84-86 | every new key is `package/name` of some registered file |
| MessageIndexers.LaterExtensionWins | sphinx_rosmsgs/message_indexer.py:76-86 | across the three extensions of a root the last registration wins: a file named n owns `package/n`, with its extension's kind, when no later file of its list and no file of a later extension is named n (a `.srv` overwrites a `.msg` of the same stem) |
| MessageIndexers.LaterExtensionsKeepKey | sphinx_rosmsgs/message_indexer.py:76-86 | extensions whose files are never named n leave `package/n` as it was |
| MessageIndexers.IndexerClass.constructor | sphinx_rosmsgs/message_indexer.py:14 | the class starts uninitialised |
| MessageIndexers.IndexerClass.InitClass | sphinx_rosmsgs/message_indexer.py:24-33 | after the call the class is initialised; the tables are filled only on the first call |
| MessageIndexers.MessageIndexer.Empty | sphinx_rosmsgs/message_indexer.py:35-39 | keeps the path list; both maps empty |
| MessageIndexers.MessageIndexer.Create | sphinx_rosmsgs/message_indexer.py:35-40 | initialises the class, then yields an indexer holding exactly the fold over the roots, or that fold's error |
| MessageIndexers.MessageIndexer.IndexAll | sphinx_rosmsgs/message_indexer.py:42-44 | the maps and error are those of folding the roots over the old maps |
| MessageIndexers.MessageIndexer.IndexPath | sphinx_rosmsgs/message_indexer.py:64-86 | the maps and error are those of indexing the root over the old maps |
| MessageIndexers.MessageIndexer.GetPath | sphinx_rosmsgs/message_indexer.py:94-95 | the indexed path, or KeyError for an unknown name |
| MessageIndexers.MessageIndexer.GetType | sphinx_rosmsgs/message_indexer.py:97-98 | the kind recorded for the name, which is one of the three, or KeyError for an unknown name |
| MessageIndexers.MessageIndexer.ParseAsWritten | sphinx_rosmsgs/message_indexer.py:100-104 | as written: None for an unknown name, TypeError for every indexed one |
| MessageIndexers.MessageIndexer.Parse | sphinx_rosmsgs/message_indexer.py:100-104 | corrected: None for an unknown name, a missing-file error when the indexed file is absent, otherwise a parsed parser of that file with the indexed kind |

## Left out

- Reading files and `splitlines`: a file system is a map from each path to its lines. `os.linesep` is `"\n"`.
- `Path.exists`, `glob` and `ElementTree` are inputs: a map from each existing root to the name text of its `package.xml` and the file lists `glob` gives. Path normalisation (`Path`, `as_posix`) and the order `glob` lists files in are not modelled; the lists are taken as given.
- The `package.xml` error message text, and the exception types other than the distinctions the code draws, are not modelled. A missing `name` element (an `AttributeError` inside the `try`) counts as an invalid `package.xml`.
- `register_global`, `retrieve_global`, `MessageIndexer.__str__` and `parse_all` are not modelled. They are a module-global store, printing, and a loop over `parse` respectively.
- Iteration order of the indexer's dicts is not modelled: `index` and `type_index` are maps. A block's `_message_fields` order is modelled, as the list of names in first-registration order.
- Token objects are values, not shared references. `join` in place on the previous comment and `set_text` on the appended field are modelled by rebuilding the entry. Aliasing between a definition in `_fields` and the same object in `_message_fields` is therefore not captured, beyond the invariant that every registered definition is an entry.
- The extension module glue (`message_directive.py`, `__init__.py`) is not part of this model.
- FileParsers.FileParser.ParseLine: requires the parse flag to be set, since only `parse` calls it, after setting the flag.
- MessageIndexers.MessageIndexer.IndexPath: uses the constant extension and kind tables directly. The class tables `IndexerClass.InitClass` fills are equal to them after initialisation.
- MessageIndexers.NameOf: applies the pattern to the path strings as given. It does not model the `str(path.as_posix())` conversion.

## Findings

| source | as written | input that shows it | evidently intended | confidence | as-written member | corrected member |
|---|---|---|---|---|---|---|
| sphinx_rosmsgs/file_parser/message_field.py:34 | `is_variable` is true only when the `list_size` group is None. That group always participates once the brackets match, so it is `""` for `[]` and `is_variable` is never true. | `int32[] data` | a `[]` array is variable-length | high, not executed | MessageFields.AsWrittenNeverVariable | MessageFields.FromGroups |
| sphinx_rosmsgs/message_indexer.py:102 | `FileParser(name, self)` passes the indexer object as the file path, and leaves the type at its default. `open` then raises TypeError for every indexed name. | any indexed name, e.g. `pkg/Foo` | parse the indexed path with the indexed type | high, not executed | MessageIndexers.MessageIndexer.ParseAsWritten | MessageIndexers.MessageIndexer.Parse |
