# Verified model of Newbro's local stores and config files

Newbro keeps its settings in text files, its accounts and pairings in a small
database, and its shell state in lists that several requests change at once. This
project models those parts in Dafny and proves what they keep over all inputs and
all runs.

- **Config files.** `Text`, `Scalars`, `YamlParser`, `YamlPrinter` model the
  fallback reader and the printer of nested settings. `YamlLayout` proves that the
  reader depends on nothing but the order of indentations. `YamlRoundTrip` proves that
  printed settings load back, and `YamlSettings` says exactly which do. `ScalarSyntax`,
  `YamlReading`, `YamlWriter` and `YamlErrors` say what text that nobody printed is read
  as: every scalar by a grammar of its own, repeated keys, nested lists, and which error
  a bad line raises. `ConnectorConfig` and `SetupRewrite` prove when running setup again
  leaves the config text alone, `SetupExtraction` what setup takes over from a file that
  somebody edited. What Python's `str` makes of a float or a container is any function.
- **Env files.** `EnvFile` models the template, the merge and the three readers;
  `EnvText` says what lines with spaces and comment marks are read as, and where every
  line of the written file comes from.
  `EnvRewrite`, `EnvBootstrap` and `EnvReaders` prove exactly which values the merge
  keeps, that it settles in one pass, and that all readers read it alike.
- **Accounts and device pairing.** `AuthTables` is one step per call of the store;
  `AuthStore` is the store as an object, each method proved to make its step.
  `AuthInvariant`, `AuthStability`, `Pairings` and `PairingCodes` prove what every
  run keeps; `Sessions` and `PairingFlow` that what was started works: tokens of logins
  find their users, codes let in whom they should, pairings complete. The hash is any
  function, and fresh secrets are never assumed to be
  fresh: a collision is the integrity error of the database, which rolls back.
- **The web client's stores.** `ThreadOpens` and `LoadOrder` treat every await as a
  point where other steps may run. `ShellLists` and `Paging` are the lists and their
  pages, `Timeline` the merge of server turns and local turns.
- **Three loops.** `PathTokens` is the path scanner, `Supervisor` the shutdown of
  managed processes, `Subscriptions` the fan-out to subscriber queues.

Loops and objects of the program are methods and classes here; each is proved to
compute a function, and the lemmas are about those functions. Where a property one would
expect does not hold, the model keeps the code as it is and proves when it does hold:

- `render_yaml_scalar` quotes a text with a newline, but the reader works line by line and
  undoes an escape that the printer never writes. `SettingSurvivesExactly` gives, for
  every key and every text, the exact condition under which a setting comes back from its
  file; `NewlineBreaksTheFile` is a text after which the file cannot be loaded at all.
- An empty `connector_host` is printed as a bare key and comes back as the default block.
  `RewriteFixpoint` has this as one of its three exact conditions.
- An older timeline page that comes back after its thread was opened anew may leave a gap
  (`LatePageLeavesGap`). `ReplyKeepsEndExactly` says which replies do, by the cursor of the
  request; `StoredTurnsAreEndsExactly` says it of every run.
- A load may be applied over a bro list refresh that was started after it
  (`LoadLandsOverLaterRefresh`). `OlderLoadLandsExactly` says when: exactly while the newest
  load is unanswered. The reverse cannot happen.
- A bootstrap drops the value of an interactive template key other than the OpenAI key.
  `BootstrapKeepsValues` says what becomes of every old assignment.

`dafny verify dfyconfig.toml` checks everything.

## Model

| member | source | states |
|---|---|---|
| Text.Strip | src/newbro/yaml_support.py:40 | The result is trimmed, is the text itself when that is trimmed, and is empty exactly when the text is all white space. |
| Text.StripCore | src/newbro/yaml_support.py:78 | White space on both sides of a trimmed core is cut off down to exactly that core. |
| Text.SplitDocument | src/newbro/cli/config_files.py:141 | Lines without line breaks that are joined with a final newline are split back into exactly those lines. |
| TextForms.SpaceCodes | src/newbro/yaml_support.py:40 | White space is exactly these characters, by number. |
| TextForms.SplitAnyBreaks | src/newbro/yaml_support.py:39 | Lines that end in any of the line breaks, a carriage return with its line feed being one, are split into exactly those lines. |
| Scalars.IntTextRoundTrip | src/newbro/yaml_support.py:128-131 | The decimal text of every integer is an integer literal with that value. |
| Scalars.UnescapeIsIdentity | src/newbro/yaml_support.py:120-123 | For either quote, undoing its escapes leaves a text alone exactly when it holds no backslash before that quote, and shortens it otherwise. |
| Scalars.ParsedTextShrinks | src/newbro/yaml_support.py:112-136 | A scalar is read as itself exactly when it is no null or boolean word, no quoted string, no empty bracket pair and no number; no text read is longer than its source. |
| Scalars.TextSurvivesExactly | src/newbro/yaml_support.py:112-136 | For the scalar syntax alone, before any splitting into lines: a text printed, trimmed and read as one scalar comes back as itself if and only if it is safe: quoted without escaped quotes, or else non-empty, trimmed and not readable as anything else. |
| Scalars.SafeScalarParses | src/newbro/cli/config_files.py:290-300 | Null, booleans, every integer and every safe text are printed on one line, trimmed and non-empty, and read back as themselves. |
| ScalarSyntax.ScalarIsReadExactly | src/newbro/yaml_support.py:112-136 | A scalar is read as a value if and only if its text denotes it, by a grammar that does not mention the reader: words in any case, signed numbers with zeros and underscores, floats, quoted texts cut at their escaped quotes, empty brackets, and all other text as itself. |
| YamlParser.Tokenize | src/newbro/yaml_support.py:37-47 | The loop over raw lines yields the tokens of the tokenizer function, or its odd-indentation error with the line number. |
| YamlParser.ParseBlock | src/newbro/yaml_support.py:50-57 | Returns the value, stop index or error of the block function, by list, empty flow value or mapping. |
| YamlParser.ParseMapping | src/newbro/yaml_support.py:60-88 | The mapping loop computes the mapping function: same entries in insertion order, same stop index, same errors. |
| YamlParser.ParseList | src/newbro/yaml_support.py:91-109 | The list loop computes the list function: same items, same stop index, same errors. |
| YamlParser.LoadSimpleYaml | src/newbro/yaml_support.py:27-34 | Loading a text is reading all its tokens as one block, with an error for what trails. |
| YamlParser.BlockAt | src/newbro/yaml_support.py:50-57 | Terminates on every line sequence and never stops before its start or past the end. |
| YamlParser.MappingAt | src/newbro/yaml_support.py:60-88 | Terminates on every line sequence and never stops before its start or past the end. |
| YamlParser.ListAt | src/newbro/yaml_support.py:91-109 | Terminates on every line sequence and never stops before its start or past the end. |
| YamlParser.BlockExtent | src/newbro/yaml_support.py:50-57 | A successful block takes at least its first line and only lines at its indentation or deeper. |
| YamlParser.MappingExtent | src/newbro/yaml_support.py:60-88 | A successful mapping takes only lines at its indentation or deeper and stops only at the end, at a shallower line, or at an item at its own indentation. |
| YamlParser.ListExtent | src/newbro/yaml_support.py:91-109 | A successful list takes only lines at its indentation or deeper and stops at the first line that is no item at its indentation. |
| YamlReading.EntryIsReadExactly | src/newbro/yaml_support.py:27-136 | A file of one entry, with any white space around key and text, is read as a value if and only if the text denotes it. |
| YamlReading.LastEntryWins | src/newbro/yaml_support.py:60-88 | In a file of entries whose keys may repeat, every key is read once, at the place of its first line and with the value its last line denotes. |
| YamlWriter.EveryValueCanBeWritten | src/newbro/yaml_support.py:27-136 | Every list and mapping, however nested, without floats and with plain keys and any texts on one line, has a text that loads as exactly that value. |
| YamlErrors.OddLineIsNamed | src/newbro/yaml_support.py:43-45 | The first line that is indented by an odd number of blanks is refused with its number. |
| YamlErrors.BadLineIsNamed | src/newbro/yaml_support.py:60-79 | Behind good entries the first bad line decides: too deep, an item, without a colon, or without a key, each with its own error and the number of the line. |
| YamlErrors.ListEndIsNamed | src/newbro/yaml_support.py:91-98 | Behind good items the first line that is deeper or no item is refused as trailing content, with its number. |
| YamlErrors.EndIsNamed | src/newbro/yaml_support.py:51-52 | Behind the last line there is no block. |
| YamlLayout.BlockAlike | src/newbro/yaml_support.py:50-109 | Two token sequences with the same contents and the same order of indentations parse to the same value and stop index, or fail with the same kind of error. |
| YamlLayout.NoiseIsIgnored | src/newbro/yaml_support.py:40-42 | Inserting a blank line or a comment anywhere changes neither the loaded value nor whether and how loading fails. |
| YamlLayout.OnlyRelativeIndentationMatters | src/newbro/yaml_support.py:37-109 | Any strictly increasing, parity-keeping change of all indentations leaves the loaded value, or the kind of error, unchanged. |
| YamlPrinter.RenderYamlMapping | src/newbro/cli/config_files.py:268-287 | For every mapping, the printing loops yield, entry by entry and item by item, the lines of the printing function. |
| YamlPrinter.ShownByPython | src/newbro/cli/config_files.py:290-300 | A float is printed as Python shows it, a list or mapping inside a list as well, in quotes when that holds a colon, a hash or a newline. |
| YamlPrinter.EntryRoundTrip | src/newbro/cli/config_files.py:268-287 | The printed lines of a well-formed entry are read as exactly that entry, and reading goes on behind exactly those lines. |
| YamlPrinter.MappingRoundTrip | src/newbro/cli/config_files.py:268-287 | Reading the printed lines of well-formed entries, anywhere in a file, adds exactly those entries in order and moves past exactly those lines. |
| YamlRoundTrip.MappingLoadsBack | src/newbro/cli/config_files.py:268-300 | A non-empty well-formed nested mapping printed at any indentation loads back as itself, every line used, if and only if the indentation is even. |
| YamlRoundTrip.TextLoadsBack | src/newbro/yaml_support.py:27-136 | The same round trip through the text of a file, for every well-formed mapping and even indentation. |
| YamlSettings.LoadedIsOneLine | src/newbro/yaml_support.py:27-136 | Whatever is loaded from a file, no key and no text anywhere in it holds a line break. |
| YamlSettings.SettingSurvivesExactly | src/newbro/cli/config_files.py:286-300 | For every key and every text, one text setting written to a file and loaded again comes back as itself if and only if its key is plain and its text lies on one line and is safe. |
| YamlSettings.NewlineBreaksTheFile | src/newbro/cli/config_files.py:297-300 | A text with a newline is printed in quotes over two lines, and loading the file fails at the second. |
| ConnectorConfig.RenderConnectorConfig | src/newbro/cli/config_files.py:235-265 | For every config, appends the blocks in order, open or as empty braces, to the text of the config function. |
| ConnectorConfig.ConfigLoads | src/newbro/cli/config_files.py:235-265 | The written config of well-formed blocks loads as the six entries it means; an empty host block loads as nothing. |
| SetupRewrite.ExtractedConfig | src/newbro/cli/config_files.py:351-442 | What the extraction functions find in the written file: the runtime without removed keys, the host or its default, the connectors and executors, and the trimmed executor names. |
| SetupRewrite.RewriteIsSettled | src/newbro/cli/config_files.py:379-442 | A rewritten config is well-formed again, has a host, no removed key, and a node of trimmed names only. |
| SetupRewrite.RewriteFixpoint | src/newbro/cli/config_files.py:235-265 | Rendering, loading, extracting and rendering again gives identical text if and only if the host block is not empty, no runtime key is removed, and the executor node holds only trimmed names. |
| SetupRewrite.RewriteSettlesInOnePass | src/newbro/cli/config_files.py:379-442 | For every well-formed config the second rewrite leaves the text of the first unchanged. |
| SetupExtraction.BlocksAreTakenOver | src/newbro/cli/config_files.py:379-387 | From any loaded mapping the runtime block is taken over in order, without exactly its removed keys. |
| SetupExtraction.MappingsAreTakenOver | src/newbro/cli/config_files.py:407-442 | Of connectors and executors exactly the entries that are mappings are taken over, in order; the host block as it is. |
| SetupExtraction.NamesAreTakenOver | src/newbro/cli/config_files.py:351-362 | The executor node becomes exactly the texts of its list that are not blank, trimmed, in order. |
| SetupExtraction.MissingBlocksHaveDefaults | src/newbro/cli/config_files.py:390-442 | A block that is missing or is no mapping is replaced by its default, written out. |
| SetupExtraction.UnreadableIsEmpty | src/newbro/cli/config_files.py:303-316 | A file that cannot be read, or holds no mapping, counts as an empty one. |
| EnvFile.ParseEnvTemplateLines | src/newbro/cli/config_files.py:30-52 | The loop parses every template line into raw text, key, trimmed value and comment mark. |
| EnvFile.LoadEnvAssignments | src/newbro/cli/config_files.py:77-92 | Returns the last value of each assigned key and the keys in the order of their lines, repeats included. |
| EnvFile.LoadEnvFile | src/newbro/envfile.py:8-25 | Returns the last value of each key among the lines the pattern matches without a comment mark. |
| EnvFile.EnvFileHasKey | src/newbro/cli/checks.py:52-62 | True if and only if some line gives the key, empty or not, a non-blank value. |
| EnvFile.DeclaresIsAssigns | src/newbro/cli/checks.py:55-61 | The lines that count are those loaded as an assignment of a non-blank value to the key; only the empty key is found in lines that are not loaded. |
| EnvFile.ResolveBootstrapValues | src/newbro/cli/config_files.py:214-232 | The loop computes the resolved values in order, with the OpenAI key decided last. |
| EnvFile.WriteEnvFile | src/newbro/cli/config_files.py:95-141 | Writes the template's lines, then the unknown keys, then the additional ones, each group behind a blank line. |
| EnvText.SpacedLineLoads | src/newbro/cli/config_files.py:82-91 | White space around a line and around its key does not count; what follows the sign does. |
| EnvText.TemplateLineParses | src/newbro/cli/config_files.py:30-52 | A template line with any white space, commented or not, is parsed into its key, its trimmed value and its mark. |
| EnvText.NoSignNoKey | src/newbro/cli/config_files.py:33-36 | A line without an equals sign has no key, in the template or in the user's file. |
| EnvText.NoKeyNoAssignment | src/newbro/cli/config_files.py:33-43 | A line with nothing but white space and a comment mark in front of the sign has no key. |
| EnvText.MatchesExactly | src/newbro/envfile.py:8-22 | The pattern gives a key and a value if and only if the line is white space, a key of capitals, digits and underscores, the sign, and that value. |
| EnvText.WrittenLines | src/newbro/cli/config_files.py:95-141 | Every line of the written file: each template line at its own place, unchanged when it has no key or is a comment without a chosen value; then the two groups behind their blank lines. |
| EnvText.GroupsKeepOrder | src/newbro/cli/config_files.py:122-139 | The user's other keys are written in the order of the user's file, repeats included, and further chosen keys in the order in which they were chosen. |
| EnvText.ChosenInOrder | src/newbro/cli/config_files.py:214-232 | Values are chosen in the order of the template's lines, for the keys not asked for interactively, and for the OpenAI key last unless it is among them. |
| EnvRewrite.ReadIsStorable | src/newbro/cli/config_files.py:82-91 | Whatever is loaded from a line has a key and value that can stand on a line of their own. |
| EnvRewrite.StorableReads | src/newbro/cli/config_files.py:122-139 | A storable assignment written as a line is read back as exactly that assignment. |
| EnvRewrite.WrittenAssignments | src/newbro/cli/config_files.py:95-141 | A written file assigns exactly what its template lines, the user's unknown keys and the additional keys assign, in that order. |
| EnvBootstrap.ResolvedLine | src/newbro/cli/config_files.py:214-232 | With distinct template keys, the value resolved for a key is the one its own line asks for. |
| EnvBootstrap.NothingAdditional | src/newbro/cli/config_files.py:124-139 | A bootstrap never writes the third group of lines. |
| EnvBootstrap.BootstrapAssigns | src/newbro/cli/config_files.py:95-141 | What a bootstrapped file assigns is what the template lines assign and then the user's other keys with their old values. |
| EnvBootstrap.BootstrapKeepsValues | src/newbro/cli/config_files.py:77-141 | Every old assignment of a key outside the template survives to the letter; a template key keeps its value up to trimming exactly when it is not blank and the key is the OpenAI key or not interactive, and goes back to what its template line says otherwise. |
| EnvBootstrap.BootstrapSettles | src/newbro/cli/config_files.py:77-141 | Load, resolve and write on its own output gives identical text, for any old file, any interactive keys, and with or without the OpenAI key in the template. |
| EnvReaders.LoadersAgree | src/newbro/envfile.py:8-25 | On every file written with environment-style keys and clean values the two loaders return the same assignments. |
| EnvReaders.ChosenValueIsRead | src/newbro/cli/checks.py:52-62 | Every template key with a chosen value loads back to exactly that value, and the key check reports it present. |
| AuthTables.FindUser | src/newbro/api/public_auth.py:655-682 | Finds a user with the normalized address if and only if there is one. |
| AuthTables.FirstFree | src/newbro/api/public_auth.py:314-327 | The chosen attempt is free in both unique indexes and every earlier one is not. |
| AuthStore.PublicAuthStore.constructor | src/newbro/api/public_auth.py:85-89 | A new store is empty and valid. |
| AuthStore.PublicAuthStore.FindExistingUser | src/newbro/api/public_auth.py:655-682 | In a valid store the scan finds the one user with the address. |
| AuthStore.PublicAuthStore.CreateInvite | src/newbro/api/public_auth.py:173-182 | Makes the create-invite step and keeps the store valid. |
| AuthStore.PublicAuthStore.SignupWithFixedCode | src/newbro/api/public_auth.py:184-197 | Makes the signup step, with its four errors in order, and keeps the store valid. |
| AuthStore.PublicAuthStore.CreateUserSession | src/newbro/api/public_auth.py:250-272 | Makes the login step, rolled back on a token collision, and keeps the store valid. |
| AuthStore.PublicAuthStore.RedeemInvite | src/newbro/api/public_auth.py:199-248 | Makes the redeem step, rolled back on a collision, keeps the store valid and never raises the error for a missing user. |
| AuthStore.PublicAuthStore.UserForToken | src/newbro/api/public_auth.py:274-299 | Makes the lookup step and keeps the store valid. |
| AuthStore.PublicAuthStore.DeleteBrowserSession | src/newbro/api/public_auth.py:301-306 | Makes the delete step and keeps the store valid. |
| AuthStore.PublicAuthStore.CreateDevicePairing | src/newbro/api/public_auth.py:308-335 | Makes the create step with at most ten attempts and keeps the store valid. |
| AuthStore.PublicAuthStore.ClaimDevicePairing | src/newbro/api/public_auth.py:337-365 | Makes the claim step, its checks in order, for any user id, and keeps the store valid when there is such a user. |
| AuthStore.PublicAuthStore.PollDevicePairing | src/newbro/api/public_auth.py:367-387 | Makes the poll step and keeps the store valid. |
| AuthStore.PublicAuthStore.ClaimSession | src/newbro/api/public_auth.py:389-395 | Makes the insert-or-ignore step for a session owner and keeps the store valid. |
| AuthStore.PublicAuthStore.ClaimExecutorNode | src/newbro/api/public_auth.py:548-554 | Makes the insert-or-ignore step for a node owner and keeps the store valid. |
| AuthInvariant.StepKeepsInv | src/newbro/api/public_auth.py:173-395 | Every call keeps all invariants and none finds a redeemed invite without its user. |
| AuthInvariant.ReachableStatesAreSound | src/newbro/api/public_auth.py:199-306 | In every state reached from the empty store at most one user has any address, every session and redeemed invite points to a user, and the invite error is never raised next. |
| AuthStability.OwnersNeverChange | src/newbro/api/public_auth.py:389-395 | Once a session or an executor node has an owner, that row is the same after every run. |
| AuthStability.FirstClaimWins | src/newbro/api/public_auth.py:389-395 | The first claim of a session decides its owner for every later state. |
| AuthStability.RedeemIsStable | src/newbro/api/public_auth.py:199-248 | Redeeming a code again after any run that does not create its invite anew logs in the same user, or fails exactly when the new token collides. |
| AuthStability.SameAddressSameUser | src/newbro/api/public_auth.py:250-272 | Two logins with one address, with any run in between, are logins of one user, or the second fails exactly when its token collides. |
| Sessions.LoginIsFoundLater | src/newbro/api/public_auth.py:274-299 | The token of a signup or redeem finds the user who logged in, after any run that deletes no session under its hash. |
| Sessions.ClaimIsFoundLater | src/newbro/api/public_auth.py:337-365 | So does the token of a claimed pairing, for the user who claimed it. |
| Sessions.DeletedIsNotFound | src/newbro/api/public_auth.py:301-306 | A deleted token finds nobody, after any run that opens no session under its hash. |
| Sessions.LastSeenIsLastAnswer | src/newbro/api/public_auth.py:199-299 | Over any run a user was last seen when last named in an answer; the rows of all others stay as they were. |
| Sessions.SignupNeedsTheCode | src/newbro/api/public_auth.py:184-197 | A signup gets to its login exactly with an address and the configured code, trimmed; it logs in under that address and fails then only for a collision. |
| Sessions.InviteLetsIn | src/newbro/api/public_auth.py:199-248 | In every reachable store, redeeming the code of an invite logs in a user with the invite's address, whatever was redeemed before, and fails only for a collision. |
| Sessions.UnknownCodeLetsNobodyIn | src/newbro/api/public_auth.py:199-212 | An empty code and a code without an invite are refused, each with its own error. |
| Sessions.RowsAreStamped | src/newbro/api/public_auth.py:173-395 | Every call stamps with its own time exactly the rows it makes, redeems or looks up, and gives new users their kind of id; all other times stay. |
| Pairings.PairingMoves | src/newbro/api/public_auth.py:337-387 | One call leaves a pairing alone, or claims it by its code before it expires, or takes its stored token by a poll that returns it; nothing else. |
| Pairings.TokensAreConserved | src/newbro/api/public_auth.py:337-387 | Over any run, tokens made by claims equal tokens still stored plus tokens delivered. |
| Pairings.TokenIsDeliveredOnce | src/newbro/api/public_auth.py:367-387 | All polls of one device code together return a token at most once, and exactly once when the pairing is claimed and its token gone. |
| Pairings.ClaimedAtMostOnce | src/newbro/api/public_auth.py:337-365 | In any run a pairing turns claimed at most once, and then keeps its code, user and claim time for ever. |
| Pairings.ClaimPassedTheChecks | src/newbro/api/public_auth.py:345-365 | Every claim was of a pending pairing, by its code, before it expired, and stores that call's user and token. |
| Pairings.ExpiredStaysPending | src/newbro/api/public_auth.py:377-380 | With a clock that does not go back, a pairing that expired unclaimed never changes again and every poll of it fails as expired. |
| PairingFlow.StartedIsPending | src/newbro/api/public_auth.py:308-335 | A started pairing is pending under its device, with a drawn code nobody has, for ten minutes; all other pairings stay. |
| PairingFlow.ClaimIsAnswered | src/newbro/api/public_auth.py:337-365 | A claim is answered by the one pairing with its code: used, expired, or claimed for this user and token. |
| PairingFlow.UnknownCodeIsRefused | src/newbro/api/public_auth.py:345-346 | A code that no pairing has is refused and changes nothing. |
| PairingFlow.PollIsAnswered | src/newbro/api/public_auth.py:367-387 | A poll is answered by the state of the device's own pairing. |
| PairingFlow.PairingCompletes | src/newbro/api/public_auth.py:308-387 | A started pairing can be claimed by its code in time, after any run that does not claim it, and its token then reaches the first poll of its device, after any run without one, and no later poll. |
| PairingFlow.TypedCodeIsRecognised | src/newbro/api/public_auth.py:338 | A code is recognised in either case and with white space around it. |
| PairingFlow.DrawnCodes | src/newbro/api/public_auth.py:314-329 | Ten codes are drawn for a pairing, each of four capitals and digits without I, O, 0 and 1. |
| PairingCodes.CodeCount | src/newbro/api/public_auth.py:34-35 | There are exactly 1,048,576 pairing codes. |
| PairingCodes.PairingsAreBounded | src/newbro/api/public_auth.py:308-335 | No reachable store holds more than 1,048,576 pairings. |
| PairingCodes.CreateSucceedsWhileCodesRemain | src/newbro/api/public_auth.py:314-329 | Some draw of codes lets a new pairing start if and only if fewer than 1,048,576 exist. |
| PairingCodes.ExhaustedForEver | src/newbro/api/public_auth.py:314-329 | Once that many pairings exist, every create after any run raises and changes nothing. |
| ShellLists.ThreadIdsStayDistinct | clients/web/src/NewbroShell.tsx:196-219 | Upserting, marking and appending a page without repeats keep thread ids pairwise distinct. |
| ShellLists.UpsertedThread | clients/web/src/NewbroShell.tsx:196-207 | The upserted thread is listed with its new content, in its place or else in front; every other thread stays as and where it was. |
| ShellLists.AppendedThreads | clients/web/src/NewbroShell.tsx:731-745 | Loading more threads keeps those listed and adds behind them exactly the page's unlisted ones, in order; every thread of the page is then listed. |
| ShellLists.ReplacedTurns | clients/web/src/NewbroShell.tsx:245-254 | Replacing a thread's turns sets exactly that thread's turns and leaves every other thread's. |
| ThreadOpens.Shell.BeginThreadOpen | clients/web/src/lib/thread-open-dedupe.ts:5-16 | Begins exactly when the key was not in flight, and it is in flight afterwards. |
| ThreadOpens.Shell.OpenRuntimeBroThread | clients/web/src/NewbroShell.tsx:663-686 | Makes the open step, and asks for the timeline exactly when the same open is not in flight. |
| ThreadOpens.Shell.OpenReplied | clients/web/src/NewbroShell.tsx:687-706 | Makes the reply step: acts only for the latest key, and always finishes the open. |
| ThreadOpens.NothingOpensForEver | clients/web/src/NewbroShell.tsx:663-707 | In every interleaving, what is shown as opening is the thread of the latest key and that key is in flight; so nothing is shown as opening once nothing is in flight. |
| ThreadOpens.LatestIsShown | clients/web/src/NewbroShell.tsx:663-707 | When each thread has one persona, the latest open is shown as opening if and only if its request is in flight. |
| ThreadOpens.SupersededRepliesAreIgnored | clients/web/src/NewbroShell.tsx:687-706 | Two runs that differ in nothing but what the replies to superseded opens say end in the same state. |
| ThreadOpens.OpenShowsLoading | clients/web/src/NewbroShell.tsx:663-676 | An open shows its thread as opening without an error, and marks exactly its thread as loading unless it is in flight. |
| ThreadOpens.ReplyEndsOpening | clients/web/src/NewbroShell.tsx:702-706 | A reply ends its own request only, and whether acted on or not its thread is not shown as opening any more. |
| ThreadOpens.LastOpenIsWhatIsShown | clients/web/src/NewbroShell.tsx:663-707 | Once nothing is in flight, the last opened thread's own reply decides: a failure shows its message, on the thread and as the open error, and changes nothing else; a page its thread, turns and cursor, and no error. |
| ThreadOpens.LastOpenedPageIsStored | clients/web/src/NewbroShell.tsx:690-694 | If that reply succeeded, it left exactly its page as the thread's stored turns, and they are so at the end unless something other than opens changed them later. |
| LoadOrder.Loader.LoadShellSession | clients/web/src/NewbroShell.tsx:553-563 | Starts a load under the next number. |
| LoadOrder.Loader.LoadReturned | clients/web/src/NewbroShell.tsx:589-604 | Applies a load exactly when it succeeded and no later load was started. |
| LoadOrder.Loader.RefreshBroList | clients/web/src/NewbroShell.tsx:624-631 | Starts a refresh under the next number, remembering the session and the loads started so far. |
| LoadOrder.Loader.RefreshReturned | clients/web/src/NewbroShell.tsx:632-661 | Applies a refresh exactly when it succeeded, is the newest refresh, and no load was started since it began. |
| LoadOrder.LoadIsAppliedExactly | clients/web/src/NewbroShell.tsx:589-604 | After any events, the answer to a load is applied if and only if it succeeded, the load was awaited and none was started after it; its session is then the active one. |
| LoadOrder.RefreshIsAppliedExactly | clients/web/src/NewbroShell.tsx:632-661 | After any events, the answer to a refresh is applied if and only if it succeeded, the refresh was awaited and is the newest, it was asked for the session active when it began, and no load was started since. |
| LoadOrder.AppliedInOrder | clients/web/src/NewbroShell.tsx:553-661 | In every interleaving, applied load numbers and applied refresh numbers strictly increase, and no refresh is applied over a load that began after it. |
| LoadOrder.OlderLoadLandsExactly | clients/web/src/NewbroShell.tsx:589-604 | In every state, some continuation applies a load begun by then if and only if the newest load is unanswered, and no continuation applies an older one. |
| LoadOrder.OlderLoadLandsAfterRun | clients/web/src/NewbroShell.tsx:553-661 | The same after every run of loads and refreshes from the start. |
| LoadOrder.LoadLandsOverLaterRefresh | clients/web/src/NewbroShell.tsx:589-661 | A run in which a load is applied over a refresh that was started after it. |
| Paging.PageAdds | clients/web/src/NewbroShell.tsx:256-262 | An older page adds exactly the part of it before what is stored, to its own thread only. |
| Paging.PageKeepsEndExactly | clients/web/src/NewbroShell.tsx:256-262 | Prepending a page leaves the thread's turns a contiguous end of its log if and only if the page touches or overlaps what is stored, or is empty. |
| Paging.ReplyKeepsEndExactly | clients/web/src/NewbroShell.tsx:762-792 | The reply to a request for an older page does so if and only if what is stored by then starts no later than the cursor the request was made with, or the page is empty. |
| Paging.RequestsAndAnswers | clients/web/src/NewbroShell.tsx:762-792 | An older page is asked for with the cursor of the last page exactly when there is one; every answer ends its own request only. |
| Paging.StoredTurnsAreEndsExactly | clients/web/src/NewbroShell.tsx:663-792 | After any run of opens, requests and replies a thread's stored turns are a contiguous end of its log, in order, if and only if no reply since its last open left a gap. |
| Paging.UndisturbedRunsKeepEnds | clients/web/src/NewbroShell.tsx:663-792 | When no open of a thread comes back while an older page of it is awaited, the stored turns of every thread are a contiguous end of its log. |
| Paging.OtherThreadsUntouched | clients/web/src/NewbroShell.tsx:245-262 | No run changes the stored turns of a thread that it neither opens nor asks for. |
| Paging.LatePageLeavesGap | clients/web/src/NewbroShell.tsx:762-792 | For any three positions in a log, a run the shell can make that ends with a gap: open, older page, second request, open again, second page. |
| Timeline.Artboard.UpsertTextTurn | clients/web/src/ArtboardShell.tsx:3678-3686 | The local text turn is in the list, at the end when its id is new; no other turn moves or changes, and ids stay distinct. |
| Timeline.Artboard.UpsertAudioTurn | clients/web/src/ArtboardShell.tsx:3687-3695 | The local audio turn is in the list, at the end when its id is new; no other turn moves or changes, and ids stay distinct. |
| Timeline.Artboard.RemoveAudioTurn | clients/web/src/ArtboardShell.tsx:3696-3698 | Keeps exactly the audio turns with another id, at increasing positions of the old list, and leaves the text turns. |
| Timeline.CompareIsOrder | clients/web/src/ArtboardShell.tsx:363-368 | The comparison is a consistent order even when times are missing, for every collation of ids. |
| Timeline.SortIsUnique | clients/web/src/ArtboardShell.tsx:363-368 | Where the comparison tells turns apart, any two sorted arrangements of them are equal. |
| Timeline.TimelineIsCanonicalThenLocal | clients/web/src/ArtboardShell.tsx:276-370 | The shown timeline is first exactly the server turns of this bro and thread, in their order, then exactly the entries of this bro's and thread's local turns that none of them answers, each with its turn's text, time and status: those without a time first, then oldest first, by id at the same time. |
| Timeline.TimelessKeepOrder | clients/web/src/ArtboardShell.tsx:359-368 | Local turns without a time are shown in the order of their submission, texts before audios, whatever their ids. |
| Timeline.EachTurnOnce | clients/web/src/ArtboardShell.tsx:342-370 | After any run of local upserts and removals a submitted turn is shown exactly once, before and after its acknowledgement, and nothing is shown for a request neither side has. |
| PathTokens.ExtractPathTokens | src/newbro/api/workspace_path_tokens.py:17-32 | One pass over the matches collects the trimmed maximal runs at every start, and only those. |
| PathTokens.SkipMatch | src/newbro/api/workspace_path_tokens.py:12 | Going on behind a match misses no start and no token. |
| PathTokens.TokensOfBoth | src/newbro/api/workspace_path_tokens.py:12-32 | Extracting from two texts with white space between them is the union of both extractions. |
| PathTokens.TokensAreStable | src/newbro/api/workspace_path_tokens.py:12-32 | Every extracted token is an absolute path, and extracting from it gives just that token. |
| PathTokens.DelimitedPathIsFound | src/newbro/api/workspace_path_tokens.py:5-11 | A path between an opening boundary and a stop character is always found. |
| PathTokens.PathInTextIsFound | src/newbro/api/workspace_path_tokens.py:5-32 | With the characters written out: a path behind white space, an opening bracket, a quote or a backtick, and before white space, a bracket, a quote or a backtick, is found without the punctuation behind it. |
| PathTokens.OtherSlashesStartNothing | src/newbro/api/workspace_path_tokens.py:5-12 | Relative paths and addresses with a scheme give nothing. |
| Supervisor.TerminateChild | src/newbro/cli/processes.py:17-26 | The child was seen exited or is sent kill, kill at least five seconds after terminate and only to a child just seen running; it sleeps only while the child runs, at most 50 times. |
| Supervisor.Supervisor.StopAll | src/newbro/cli/processes.py:77-89 | Every process was seen exited or is sent kill; signals go only to processes just seen running and never to one seen exited, terminate in reverse start order, kill only after terminate and at least five seconds after every terminate; at most 50 sleeps, of a tenth of a second, each while something runs. |
| Supervisor.Supervisor.RunManagedProcesses | src/newbro/cli/processes.py:62-110 | For any exit schedule and number of processes, the log up to the way out is the starts and then full sweeps that found every process running; the code returned is that of the first exited process in start order in the sweep after them; then both shutdowns are complete. |
| Subscriptions.SubscriptionManager.SubscribeQueue | src/newbro/blackboard/subscriptions.py:12-15 | Adds a new queue of its own for the subscriber. |
| Subscriptions.SubscriptionManager.UnsubscribeQueue | src/newbro/blackboard/subscriptions.py:17-19 | Removes exactly this queue, if it is subscribed. |
| Subscriptions.SubscriptionManager.PublishEvent | src/newbro/blackboard/subscriptions.py:21-23 | Puts the event once into every subscribed queue and into no other. |
| Subscriptions.SubscriptionManager.TakeFrom | src/newbro/blackboard/subscriptions.py:12-15 | What the subscriber's own get takes from the returned queue is its oldest event, as in the consume step, also after unsubscribing. |
| Subscriptions.SubscriberGetsWhatWasPublished | src/newbro/blackboard/subscriptions.py:8-23 | For every sequence of calls, what a subscriber consumed and then what is queued for it is exactly what was published while it was subscribed, in order and once each. |

## Left out

- The PyYAML path of `load_yaml_file`: a library, not this repository's code.
- What Python's `str` makes of floats and of lists or mappings inside lists: any function
  here, so no round trip is claimed for them. The reader keeps a float as its literal.
  Digits outside ASCII and the interpreter's limit on the length of integers are not
  modelled.
- Turns that arrive at a thread's log while it is paged, and how the server makes its
  cursors: a log is fixed and a cursor is a position in it.
- Letter case beyond ASCII, for addresses, pairing codes and the words of the config
  reader.
- The sort by activity in the lookup of a user by address: it decides between several
  matches, and it is proved that there never are several. Personas are left out with it.
- SQLite, cookies, web plumbing, hashing and randomness: tables are maps, the hash is
  any function, random draws and the clock are inputs of each call. Each call reads the
  clock once.
- Owned-session, owned-node and persona queries: they only read.
- Environment variables, files and directories: texts are inputs and results.
- `resolve_setup_values` and prompts: the same merge with values from elsewhere, covered
  by the lemmas on any chosen values.
- Snapshots, logout, closing a thread and unmounting, which replace the shell's state
  wholesale.
- The bro list's content, chat messages and warnings that a load or refresh sets; what
  is modelled is which request they come from.
- The text of a timeline turn beyond its ids, modality, times and status.
- Supervisor.Supervisor.RunManagedProcesses: the source's loop has no end, so a run is cut after a number of sweeps given from outside, for every such number; a signal is modelled at the end of a sweep, not in the middle of a shutdown or while processes are being started.
- Event values, and who awaits a queue: a put into an unbounded queue never suspends, so a
  publication is one step.
- The scheduler, the execution brain and the in-memory blackboard are not part of this
  model, nor are firmware, Swift tools, prototypes and rendering.
