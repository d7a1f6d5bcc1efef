# VPN model and UDisks2 block: a Dafny model

This project models two parts of the Sailfish system settings QML plugin
(nemo-qml-plugin-systemsettings).

**`VpnModel` (src/vpnmodel.cpp)** is the QML list of VPN connections, kept in
step with the ConnMan VPN daemon. The model covers:

- the translation of connection properties between their D-Bus form and
  their QML form (`PropertyTranslator`);
- the token files that mark a connection to come up automatically
  (`TokenRepository`);
- the Base64-encoded credentials files (`Credentials`, over `DataStream` and
  `Base64`);
- the list of connection records, its best state and its name order
  (`ConnectionList`);
- the OpenVPN profile importer (`Importer`);
- the model class itself (`Vpn.VpnModel`). Its methods are the daemon's
  signals and the requests the QML layer makes.

**`Block` (src/udisks2block.cpp)** is one UDisks2 block device as the
storage model sees it (`Udisks2.Block`). It holds:

- the interface property maps;
- the mountable, encrypted, formatting and locking flags;
- the four outstanding `GetAll` requests;
- the mount path;
- the crypto-backing-device and connection-bus rules.

**How the code's features are modelled**

- Objects that the source updates in place are classes: `TokenFileRepository`,
  `CredentialsRepository`, `VpnModel` and `Block`. Each has `modifies`
  frames, and its methods are proved against specification functions.
- The source's loops are methods with loop invariants. These are the best
  state scan, the insertion scan, the provider-property merge, the
  `GetConnections` reply, token clean-up, credentials encoding and decoding,
  mount-point selection and the profile reader.
- Pure logic is functions and lemmas.

**Modelling choices**

- QString order is UTF-16 code-unit order (`QStrings`).
- QMap iteration visits keys in that order (`QMaps`). Where two keys collide
  in a target map, the later one wins.
- Qt's Base64 decoder and QDataStream reader are lenient. They are modelled
  with that leniency, including reads past the end.
- File-system results, the SHA-1 digest, the profile directory and D-Bus
  replies are parameters of the operations that depend on them.

## Model

| member | source | states |
|---|---|---|
| PropertyTranslator.ConversionTable | src/vpnmodel.cpp:47-68 | exactly the keys `type` and `state` have a table; the i-th pair maps a D-Bus string to QML integer i |
| PropertyTranslator.FindPair | src/vpnmodel.cpp:76-77 | the first pair whose searched column (QML towards D-Bus, D-Bus towards QML) compares equal to the value as Qt 5's `QVariant::operator==` does, or none when no pair does: a bool counts as 0 or 1 against an int, an int equals its decimal string, a string meets a bool through `toBool` |
| PropertyTranslator.TableColumnsDistinct | src/vpnmodel.cpp:47-68 | no value occurs twice in either column of a table, so each lookup has one answer |
| PropertyTranslator.ConvertValueSpec | src/vpnmodel.cpp:70-86 | `ConvertValue`: a value that compares equal (as `QVariant` does) to an entry of the key's table, the key taken in lower case, becomes the partner of the first such entry; any other value passes through unchanged |
| PropertyTranslator.ConvertComparesLikeQVariant | src/vpnmodel.cpp:70-86 | towards D-Bus the string `"3"` becomes `ready` and `true` becomes `openconnect`; towards QML `true` becomes Idle and a one-element string list finds its element |
| PropertyTranslator.LookupRoundTrip | src/vpnmodel.cpp:70-86 | in a table of that shape, converting and converting back gives a value back exactly when it is an entry of the column it was looked up in, or compares equal to no entry of either column |
| PropertyTranslator.ConvertRoundTrip | src/vpnmodel.cpp:70-96 | `convertToQml` then `convertToDBus` (or the reverse) gives a value back exactly when it survives its key's table in that sense; a key without a table always gives it back |
| PropertyTranslator.NumericValue | src/vpnmodel.cpp:184-187 | Ready ranks 3, Configuration 2, Failure 1 and every other state 0 |
| PropertyTranslator.ProviderPart | src/vpnmodel.cpp:156-179 | exactly the dotted D-Bus keys go under `providerProperties` |
| PropertyTranslator.QmlTopKeys | src/vpnmodel.cpp:146-182 | `QmlTop`, the loop of `propertiesToQml`: a QML key exists exactly when some undotted D-Bus key has it as its lower-initial form |
| PropertyTranslator.QmlTopValue | src/vpnmodel.cpp:146-182 | `QmlTop`: a QML key holds the converted value of the greatest D-Bus key mapping to it, the last one QMap iteration visits |
| PropertyTranslator.PropertiesToQmlKeys | src/vpnmodel.cpp:146-182 | `PropertiesToQml`: no QML key has a dot; `providerProperties` exists when a dotted key did and holds all of them; every other key comes from a D-Bus key with its initial lower-cased |
| PropertyTranslator.PropertiesToQmlInitials | src/vpnmodel.cpp:146-182 | every QML key other than `providerProperties` starts with a character that is not an upper-case letter |
| PropertyTranslator.DBusKeys | src/vpnmodel.cpp:98-122 | `PropertiesToDBus`: a D-Bus key exists exactly when a QML key writes it: a provider property flattened out, or a key whose upper-initial form it is |
| PropertyTranslator.DBusValueLast | src/vpnmodel.cpp:98-122 | the last QML key visited wins the D-Bus key it writes |
| PropertyTranslator.DBusValueSkip | src/vpnmodel.cpp:98-122 | the last QML key leaves every D-Bus key it does not write as the earlier keys left it |
| PropertyTranslator.DBusValue | src/vpnmodel.cpp:98-122 | `PropertiesToDBus`: a D-Bus key holds what the greatest QML key writing it wrote |
| PropertyTranslator.QmlKeyOrigin | src/vpnmodel.cpp:146-182 | for maps whose undotted keys are not lower-initial, are not `ProviderProperties` and survive their table, each QML key other than `providerProperties` comes from exactly one D-Bus key, its upper-initial form |
| PropertyTranslator.UndottedSource | src/vpnmodel.cpp:98-122 | for such maps, an undotted D-Bus key is written back only by its own lower-initial QML key |
| PropertyTranslator.QmlValueOfUndotted | src/vpnmodel.cpp:158-177 | for such maps, an undotted D-Bus key appears in QML under its lower-initial name with its converted value |
| PropertyTranslator.RoundTripUndotted | src/vpnmodel.cpp:98-182 | for such maps, an undotted key survives the trip to QML and back with its value; integers under keys without a table, such as `Index`, are included |
| PropertyTranslator.RoundTripDotted | src/vpnmodel.cpp:98-182 | for maps whose undotted keys are not lower-initial, are not `ProviderProperties` and survive their table, a dotted key survives the trip through `providerProperties` and back with its value |
| PropertyTranslator.RoundTripAbsent | src/vpnmodel.cpp:98-182 | for maps whose undotted keys are not lower-initial, are not `ProviderProperties` and survive their table, the trip to QML and back adds no key |
| PropertyTranslator.RoundTripAt | src/vpnmodel.cpp:98-182 | for maps whose undotted keys are not lower-initial, are not `ProviderProperties` and survive their table, the trip to QML and back has the same keys and, at each key, the same value |
| PropertyTranslator.DBusQmlRoundTrip | src/vpnmodel.cpp:98-182 | propertiesToDBus(propertiesToQml(m)) == m for every map whose undotted keys are not lower-initial, are not `ProviderProperties`, and hold values that survive their key's table |
| Text.UpperInitial | src/vpnmodel.cpp:114-116 | only the first character is upper-cased |
| Text.LowerInitial | src/vpnmodel.cpp:161-163 | only the first character is lower-cased |
| Text.LowerAll | src/vpnmodel.cpp:74 | every character is lower-cased |
| Text.LastIndexOf | src/vpnmodel.cpp:207-215 | the index of the last occurrence, or -1 when the character does not occur |
| Text.WordLength | src/vpnmodel.cpp:970 | the length of the leading run of non-white-space characters |
| Text.TokensAreWords | src/vpnmodel.cpp:970 | `Tokens`: splitting on white space with empty parts skipped yields non-empty tokens without white space |
| Text.TokensOfWord | src/vpnmodel.cpp:970 | a line that is a single word splits into that word |
| Text.TokensOfJoin | src/vpnmodel.cpp:970-1061 | `Join`: arguments joined with single spaces split back into the same arguments |
| QStrings.Utf16 | src/vpnmodel.cpp:347-348 | a string's UTF-16 form has between one and two code units per character |
| QStrings.Utf16RoundTrip | src/vpnmodel.cpp:373-376 | decoding a string's UTF-16 form gives the string back |
| QStrings.Utf16Injective | src/vpnmodel.cpp:868-881 | different strings have different UTF-16 forms |
| QStrings.LexIrreflexive | src/vpnmodel.cpp:873 | code-unit order never puts a sequence before itself |
| QStrings.LexTransitive | src/vpnmodel.cpp:873 | code-unit order is transitive |
| QStrings.LexTotal | src/vpnmodel.cpp:873 | any two different sequences are ordered one way |
| QStrings.LexAsymmetric | src/vpnmodel.cpp:873 | no two sequences come before each other |
| QStrings.LessIsStrictTotalOrder | src/vpnmodel.cpp:873 | QString `<` is a strict total order on strings |
| QMaps.GreatestKey | src/vpnmodel.cpp:346 | the key a QMap iteration visits last is greater than every other key |
| QMaps.SortedKeys | src/vpnmodel.cpp:346 | QMap iteration visits each key exactly once |
| QMaps.SortedKeysAscending | src/vpnmodel.cpp:346 | QMap iteration visits keys in strictly ascending order |
| QMaps.SortedKeysDistinct | src/vpnmodel.cpp:346 | no key is visited twice |
| QMaps.OverwriteStep | src/vpnmodel.cpp:830-832 | each step of an insert loop writes one key's new value over the map so far |
| QMaps.OverwriteKeys | src/vpnmodel.cpp:830-832 | inserting some keys of `updated` keeps every other key and gives the inserted keys `updated`'s values |
| QMaps.OverwriteAll | src/vpnmodel.cpp:830-832 | inserting every key of `updated` gives the union in which `updated` wins |
| Variants.IntToString | src/vpnmodel.cpp:348 | the decimal form of an integer is never empty |
| Variants.ToQString | src/vpnmodel.cpp:348 | Qt's `toString` table: a bool becomes `true` or `false`, an int its decimal form, a string itself, a one-element list its element; any other list and a map give the null string |
| Variants.ToBool | src/vpnmodel.cpp:517-521 | Qt 5's `toBool` table: a bool is itself, an int is true when non-zero, a string is false exactly when empty, `0` or `false` in any case (`FALSE` too), a list or map is false |
| Base64.Encode | src/vpnmodel.cpp:351 | four characters for every started group of three bytes |
| Base64.DigitOf | src/vpnmodel.cpp:358 | a character the decoder accepts stands for the digit that encodes to it; every other character is marked as outside the alphabet |
| Base64.Decode | src/vpnmodel.cpp:358 | the lenient decoder never yields more bytes than it reads characters |
| Base64.SkipPad | src/vpnmodel.cpp:358 | a pad character is skipped whatever bits are pending |
| Base64.DigitOfEncode | src/vpnmodel.cpp:358 | the decoder maps each alphabet character back to the digit it encodes |
| Base64.DecodeGroup | src/vpnmodel.cpp:358 | four characters of a full group decode to its three bytes and leave no bits pending |
| Base64.DecodeLastOne | src/vpnmodel.cpp:351-358 | a final single byte (two characters, two pads) decodes back |
| Base64.DecodeLastTwo | src/vpnmodel.cpp:351-358 | a final pair of bytes (three characters, one pad) decodes back |
| Base64.DecodeTwoDigits | src/vpnmodel.cpp:358 | three characters and a pad decode to the two bytes they encode |
| Base64.DecodeEncode | src/vpnmodel.cpp:351-358 | fromBase64(toBase64(b)) == b for every byte array |
| DataStream.Truncate32Small | src/vpnmodel.cpp:343 | an entry count below 2^32 survives truncation to `quint32` |
| DataStream.U32RoundTrip | src/vpnmodel.cpp:341-344 | the four big-endian bytes of a `quint32` stand for that number |
| DataStream.ReadU32_U32 | src/vpnmodel.cpp:363-370 | reading a written `quint32` gives it back and leaves the bytes after it |
| DataStream.U32 | src/vpnmodel.cpp:341-344 | a `quint32` is written as four bytes |
| DataStream.ReadU32 | src/vpnmodel.cpp:363-370 | a `quint32` read with fewer than four bytes left is zero and uses up the input; otherwise it takes four bytes and yields a number below 2^32 |
| DataStream.ReadString | src/vpnmodel.cpp:373-375 | reading a string never consumes more than the input |
| DataStream.BytesUnits_UnitBytes | src/vpnmodel.cpp:347-348 | code units written high byte first read back unchanged |
| DataStream.WriteString | src/vpnmodel.cpp:347-348 | a null string is the 0xFFFFFFFF marker; any other string is its byte length and then its code units |
| DataStream.ReadString_WriteString | src/vpnmodel.cpp:373-375 | reading a written string gives it back, a null string as the empty string, and leaves the bytes after it |
| TokenRepository.TokenForObjectPath | src/vpnmodel.cpp:207-215 | the token is the text after some `/` and holds no `/`; it is empty for a path without `/` |
| TokenRepository.TokenIsLastSegment | src/vpnmodel.cpp:207-215 | a path with a `/` ends with `/` followed by its token |
| TokenRepository.ZeroLengthFiles | src/vpnmodel.cpp:198-203 | the listed tokens are exactly the zero-length regular files |
| TokenRepository.ZeroLengthFilesDistinct | src/vpnmodel.cpp:198-203 | a directory listing yields no token twice |
| TokenRepository.Keep | src/vpnmodel.cpp:248-261 | filtering never lengthens the list |
| TokenRepository.KeepMembers | src/vpnmodel.cpp:248-261 | the tokens kept are exactly the listed ones that are known |
| TokenRepository.DropMembers | src/vpnmodel.cpp:248-261 | the tokens dropped are exactly the listed ones that are unknown |
| TokenRepository.KeepNoDuplicates | src/vpnmodel.cpp:248-261 | filtering keeps the list free of duplicates |
| TokenRepository.ScanKeeps | src/vpnmodel.cpp:250-254 | passing over a known token keeps the loop's kept/dropped split |
| TokenRepository.ScanErases | src/vpnmodel.cpp:255-259 | erasing an unknown token in place keeps the loop's kept/dropped split |
| TokenRepository.DeletedMembers | src/vpnmodel.cpp:257 | the files deleted are exactly those attempted whose deletion did not fail |
| TokenRepository.DeletedStep | src/vpnmodel.cpp:257 | one more deletion attempt removes at most that file from the directory |
| TokenRepository.KeptHaveFiles | src/vpnmodel.cpp:248-261 | after clean-up every kept token still has its file |
| TokenRepository.EraseFirst | src/vpnmodel.cpp:238-243 | erasing the found token shortens the list by one |
| TokenRepository.EraseFirstNoDuplicates | src/vpnmodel.cpp:238-243 | erasing a token from a duplicate-free list removes exactly that token |
| TokenRepository.TokenFileRepository.constructor | src/vpnmodel.cpp:192-205 | the list holds the zero-length files when the directory exists or can be created, else nothing |
| TokenRepository.TokenFileRepository.EnsureToken | src/vpnmodel.cpp:222-234 | a new token is listed and its file created only when the write succeeds, which it cannot for the empty token; a listed token changes nothing |
| TokenRepository.TokenFileRepository.RemoveToken | src/vpnmodel.cpp:236-246 | a listed token is unlisted and its file gone only when deletion succeeds |
| TokenRepository.TokenFileRepository.RemoveUnknownTokens | src/vpnmodel.cpp:248-261 | the list keeps exactly the known tokens in order; each unknown one is attempted once; only successful deletions leave the directory |
| Credentials.EncodeCredentials | src/vpnmodel.cpp:332-352 | the file contents are `Encoded`, the Base64 form of the serialised stream |
| Credentials.SerializeCredentials | src/vpnmodel.cpp:337-349 | `Serialized`: the stream is version 1, the entry count, then each key and its value's string form in key order |
| Credentials.EntriesAppend | src/vpnmodel.cpp:346-349 | the entries for two runs of keys are the entries of each, concatenated |
| Credentials.EntriesStep | src/vpnmodel.cpp:346-349 | one more key appends its entry |
| Credentials.ReadItems | src/vpnmodel.cpp:372-377 | every decoded value is a string, and a key read earlier is never lost |
| Credentials.Decoded | src/vpnmodel.cpp:354-381 | decoding yields string values only |
| Credentials.DecodeCredentials | src/vpnmodel.cpp:354-381 | the loop reads the version, the count and that many entries, as the decoding function says |
| Credentials.Stringified | src/vpnmodel.cpp:348 | the string forms keep the same keys |
| Credentials.ReadEntry | src/vpnmodel.cpp:373-376 | one written entry reads back as its key with its value's string form |
| Credentials.ReadEntries | src/vpnmodel.cpp:372-377 | a run of written entries reads back as those keys with their string forms |
| Credentials.DecodedEntries | src/vpnmodel.cpp:354-381 | after Base64 and the header, decoding reads the written entries |
| Credentials.CredentialsRoundTrip | src/vpnmodel.cpp:332-381 | decode(encode(m)) holds every key of m with the string form of its value |
| Credentials.EncodedHeader | src/vpnmodel.cpp:340-344 | a file starts, before Base64, with version 1 and the entry count truncated to 32 bits |
| Credentials.ShortFileDecodesEmpty | src/vpnmodel.cpp:363-367 | a file too short for its version holds no credentials |
| Credentials.OtherVersionDecodesEmpty | src/vpnmodel.cpp:363-369 | `Decoded`: a stream whose version word is not 1 (0, 2, 0xFFFFFFFF, or too short to hold the word) decodes to no credentials, whatever follows |
| Credentials.LocationIsLastSegment | src/vpnmodel.cpp:272-280 | `LocationForObjectPath`: the location is the text after the last `/` and holds no `/`; it is empty for a path without `/` |
| Credentials.CredentialsRepository.constructor | src/vpnmodel.cpp:264-270 | the repository holds the files found in its directory |
| Credentials.CredentialsRepository.StoreCredentials | src/vpnmodel.cpp:288-301 | succeeds exactly when the file can be written, and then holds the encoded credentials; on failure nothing changes |
| Credentials.CredentialsRepository.RemoveCredentials | src/vpnmodel.cpp:303-313 | succeeds when there is no file or deletion succeeds, and only then is the file gone |
| Credentials.CredentialsRepository.ReadCredentials | src/vpnmodel.cpp:315-330 | the decoded file when it can be read, else no credentials; values are always strings |
| ConnectionList.InitialConnection | src/vpnmodel.cpp:1108-1114 | a new record has its id and path and holds the defaults its reads assume: disconnected, an empty name, both flags off |
| ConnectionList.PrepareUpdateSpec | src/vpnmodel.cpp:824-842 | `PrepareUpdate`: provider properties not in the update keep their values; those in it take the update's; a default domain is never written; every other key of the update is |
| ConnectionList.BestStateOf | src/vpnmodel.cpp:851-866 | the best state is never Disconnect and is Idle or a state of positive rank |
| ConnectionList.BestStateIsMaximal | src/vpnmodel.cpp:851-866 | no record outranks the best state (ranked by `StateOf`, a non-integer state reading as Disconnect), which is Idle or some record's state |
| ConnectionList.InsertionIndex | src/vpnmodel.cpp:868-881 | every record before the index has a name (`Name`, empty when unset) not greater than the new one; the record at the index has a greater name |
| ConnectionList.InsertionIndexUnique | src/vpnmodel.cpp:868-881 | only one index has that property |
| ConnectionList.Remove | src/vpnmodel.cpp:877-879 | the list without the element at `i`, in order |
| ConnectionList.Insert | src/vpnmodel.cpp:877-879 | the list with `x` at `k` and the rest in order |
| ConnectionList.RepositionIsInsertion | src/vpnmodel.cpp:868-881 | `Reposition`, the scan and `Move`: the record goes into the other records at their insertion index |
| ConnectionList.InsertRemoved | src/vpnmodel.cpp:877-879 | putting a removed record back at its own index gives the list back |
| ConnectionList.InsertSorted | src/vpnmodel.cpp:868-881 | inserting at the insertion index keeps the list sorted, after equal names and before greater ones |
| ConnectionList.RepositionSorted | src/vpnmodel.cpp:868-881 | after the move the list is sorted, the other records keep their order, and the record sits after equal names |
| ConnectionList.InsertAfterRemove | src/vpnmodel.cpp:877-879 | `Move` (remove, then insert anywhere) only reorders the list |
| ConnectionList.RepositionPermutes | src/vpnmodel.cpp:868-881 | the move at the end of an update only reorders the records |
| ConnectionList.Paths | src/vpnmodel.cpp:790-800 | the object paths of the records, one per record in list order |
| ConnectionList.RepositionKeepsPaths | src/vpnmodel.cpp:868-881 | the move keeps the multiset of object paths |
| ConnectionList.Merged | src/vpnmodel.cpp:844-847 | `Apply` of the prepared update, the `updateItem` merge, never changes a record's identity or path |
| ConnectionList.StatesOf | src/vpnmodel.cpp:851-866 | exactly the states some record is in |
| ConnectionList.BestStateByStates | src/vpnmodel.cpp:851-866 | the best state depends only on which states occur |
| ConnectionList.SameRecordsSameStates | src/vpnmodel.cpp:851-866 | reordering the records keeps the states that occur |
| ConnectionList.SameStateSameStates | src/vpnmodel.cpp:851-866 | replacing a record with one in the same state keeps the states that occur |
| ConnectionList.UpdatePermutes | src/vpnmodel.cpp:820-883 | `UpdateItems`: an update replaces the record by its merged form and otherwise only reorders; the paths are kept |
| ConnectionList.SamePathSamePaths | src/vpnmodel.cpp:846 | replacing a record with one of the same path keeps the path list |
| ConnectionList.UpdateKeepsBestState | src/vpnmodel.cpp:844-866 | `UpdateBest`, recomputing only on a state change, keeps the stored best state equal to the records' best state |
| ConnectionList.SortedRemove | src/vpnmodel.cpp:868-881 | removing a record keeps a sorted list sorted |
| ConnectionList.UpdateKeepsSorted | src/vpnmodel.cpp:868-881 | an update keeps a name-sorted list sorted |
| ConnectionList.SameNameKeepsSorted | src/vpnmodel.cpp:868-881 | replacing a record with one of the same name keeps a sorted list sorted |
| ConnectionList.AppendDisconnected | src/vpnmodel.cpp:802-818 | a new disconnected record does not change the best state |
| ConnectionList.AppendThenUpdateSorted | src/vpnmodel.cpp:802-883 | a record appended to a sorted list and then updated so that it changes ends up in name order |
| ConnectionList.IndexOfPath | src/vpnmodel.cpp:790-800 | the first record with the path, or none exactly when no record has it |
| ConnectionList.IndexOfId | src/vpnmodel.cpp:811-815 | the record that a captured connection object refers to, or none when it is gone |
| ConnectionList.SetFlag | src/vpnmodel.cpp:637-638 | the flag takes the value; identity, path, name and state stay |
| ConnectionList.SetFlagKeeps | src/vpnmodel.cpp:637-638 | setting a flag keeps name order and the best state |
| ConnectionList.Synced | src/vpnmodel.cpp:659-662 | the record's `storeCredentials` flag takes the value, and the list is unchanged when it already had it |
| ConnectionList.SyncedKeeps | src/vpnmodel.cpp:659-662 | syncing keeps name order and the best state |
| ConnectionList.NewRecordChange | src/vpnmodel.cpp:844-847 | an update changes a new record exactly when its prepared properties move some property off its default, whatever the record's identity and path |
| ConnectionList.DefaultsLeaveNewRecordLast | src/vpnmodel.cpp:802-883 | an update that writes only defaults leaves a new record last, so a sorted list can end up out of name order |
| ConnectionList.AppendPath | src/vpnmodel.cpp:802-818 | an appended record adds its path once |
| ConnectionList.UpdateFacts | src/vpnmodel.cpp:820-883 | an update keeps name order, keeps a correct best state correct, and keeps the paths |
| Importer.LeadingSpace | src/vpnmodel.cpp:893 | the length of the leading white space |
| Importer.MarkerLength | src/vpnmodel.cpp:894-895 | the length of the leading run of characters other than `/` and `>` |
| Importer.Tag | src/vpnmodel.cpp:894-895 | `OpeningTag` and `ClosingTag`: a captured marker is non-empty and holds no `/` or `>` |
| Importer.NormaliseProtocol | src/vpnmodel.cpp:900-906 | `tcp` becomes `tcp-client`; every other protocol is kept |
| Importer.Resolve | src/vpnmodel.cpp:998-1001 | an absolute path is kept |
| Importer.FileSetting | src/vpnmodel.cpp:950-959 | exactly the markers `ca`, `cert` and `key` fill in an `OpenVPN.` setting, never the configuration file |
| Importer.FileArgument | src/vpnmodel.cpp:995-1010 | the file argument is the first argument (corrected reading) |
| Importer.FileArgumentAsWritten | src/vpnmodel.cpp:997 | the code reads the second argument, which exists only with two or more arguments |
| Importer.SoleFileArgumentOutOfRange | src/vpnmodel.cpp:997 | `ca ca.crt` makes the code read past its one argument; the corrected reading takes `ca.crt` |
| Importer.DirectiveEffect | src/vpnmodel.cpp:991-1072 | the effect `Directive` applies: a known directive sets only an `OpenVPN.` setting other than the configuration file; exactly the unknown ones pass through |
| Importer.RunStep | src/vpnmodel.cpp:909-1075 | `Run`: reading one more line is one more `Step` |
| Importer.ProcessProvisioningFile | src/vpnmodel.cpp:885-1105 | the loop over the lines, then the configuration file, yields the settings and files `Import` (`Run`, then `Finish`) defines |
| Importer.CommentChangesNothing | src/vpnmodel.cpp:913-914 | a line that `IsComment` accepts changes nothing, inside a block or outside one |
| Importer.CommentsIgnored | src/vpnmodel.cpp:913-914 | removing a comment line from a profile does not change what it imports |
| Importer.FirstRemote | src/vpnmodel.cpp:976-987 | the first `remote` with arguments sets the host, and the port and protocol when given |
| Importer.LaterRemote | src/vpnmodel.cpp:988-990 | once a host is set, a `remote` line passes through verbatim |
| Importer.ProtoPortKeepEarlier | src/vpnmodel.cpp:1025-1038 | `proto` and `port` never overwrite an earlier protocol or port |
| Importer.ProtoTcp | src/vpnmodel.cpp:1025-1031 | `proto tcp` is stored as `tcp-client` |
| Importer.DirectiveDefaults | src/vpnmodel.cpp:1011-1064 | `auth-user-pass` alone means `-`, `comp-lzo` alone `adaptive`, `askpass` alone empty, and `auth-nocache` sets `true` |
| Importer.FileDirective | src/vpnmodel.cpp:991-1010 | `ca`, `cert`, `key` and `auth-user-pass` store their first argument, resolved against the profile's directory |
| Importer.UnknownDirective | src/vpnmodel.cpp:1069-1072 | an unknown directive passes through to the extra options verbatim |
| Importer.BlockContent | src/vpnmodel.cpp:967-968 | inside a block, every other line is appended to the content with a line break |
| Importer.CloseWithoutEffect | src/vpnmodel.cpp:920-927 | a mismatched or empty block only closes |
| Importer.ConnectionBlock | src/vpnmodel.cpp:928-930 | a `connection` block passes through to the extra options |
| Importer.EmbeddedBlock | src/vpnmodel.cpp:931-961 | another block is written to a file named by digest and marker; `ca`, `cert` and `key` become settings, others an extra option |
| Importer.CloseBlockKeeps | src/vpnmodel.cpp:920-966 | `CloseBlock` writes only embedded-file settings |
| Importer.DirectiveKeeps | src/vpnmodel.cpp:970-1072 | directives write the host only while it is unset, and never the configuration file |
| Importer.StepKeeps | src/vpnmodel.cpp:909-1075 | no line changes a host once set, and no line sets the configuration file |
| Importer.HostNeverChanges | src/vpnmodel.cpp:976-990 | the host set by the first `remote` survives every later line |
| Importer.ImportKeepsHost | src/vpnmodel.cpp:976-1104 | the imported host is the one the first `remote` with arguments set |
| Importer.NoConfigFileWhileReading | src/vpnmodel.cpp:909-1075 | only the end of the profile can set the configuration file |
| Importer.ConfigFileOnlyWithExtras | src/vpnmodel.cpp:1077-1102 | `Finish`: the configuration file is set exactly when there are extra options and it can be written; it holds them one per line |
| Vpn.WithDefaultDomain | src/vpnmodel.cpp:462-467 | an empty or missing domain becomes the default domain; everything else stays |
| Vpn.CreateRequest | src/vpnmodel.cpp:454-489 | a request is sent exactly for properties with no path, a host and a name, and carries their D-Bus form with the domain filled in |
| Vpn.ModifyProperties | src/vpnmodel.cpp:501-513 | the QML-only keys are stripped, every other key kept, and the domain is never empty |
| Vpn.AddedProperties | src/vpnmodel.cpp:402-404 | the QML form of the announced properties, with the two flags from the file system |
| Vpn.FetchedPaths | src/vpnmodel.cpp:769-781 | the paths of the reply in order |
| Vpn.FetchedTokens | src/vpnmodel.cpp:769-781 | the tokens of the reply's paths in order |
| Vpn.FetchedStep | src/vpnmodel.cpp:769-781 | one more connection adds its path and its token |
| Vpn.RemovalCanLeaveBestStateStale | src/vpnmodel.cpp:408-425 | removing a connection can leave a best state that no remaining record supports |
| Vpn.VpnModel.constructor | src/vpnmodel.cpp:384-442 | the model starts empty, Idle and not populated |
| Vpn.VpnModel.FindConnection | src/vpnmodel.cpp:790-800 | the index of the first record with the path |
| Vpn.VpnModel.NewConnection | src/vpnmodel.cpp:802-818 | a record with the defaults at the end and a live proxy for its path; a live proxy the path had stays connected as a stray |
| Vpn.VpnModel.MergeProviderProperties | src/vpnmodel.cpp:828-833 | the merge loop yields the existing provider properties with the updated ones written over them |
| Vpn.VpnModel.PrepareProperties | src/vpnmodel.cpp:824-842 | the merge and the domain check yield the prepared update |
| Vpn.VpnModel.ComputeBestState | src/vpnmodel.cpp:851-861 | the scan yields the records' best state |
| Vpn.VpnModel.ScanInsertionIndex | src/vpnmodel.cpp:870-876 | the scan yields the insertion index of the name |
| Vpn.VpnModel.RepositionItem | src/vpnmodel.cpp:868-881 | the record moves to its place in name order; nothing else changes |
| Vpn.VpnModel.UpdateConnection | src/vpnmodel.cpp:820-883 | merges the update; a correct best state stays correct, a sorted list stays sorted, and the paths are kept |
| Vpn.VpnModel.AddConnection | src/vpnmodel.cpp:802-883 | a new record is appended and updated, adding its path once and keeping the best state; the list stays in name order when the update changes the record, and the record stays last when it does not |
| Vpn.VpnModel.ConnectionAdded | src/vpnmodel.cpp:394-406 | a known path updates its record, an unknown one adds a record; the list gains the path only when it was new, and stays in name order unless a new record's update changes nothing |
| Vpn.VpnModel.ConnectionRemoved | src/vpnmodel.cpp:408-425 | the first record with the path and its proxy go; the best state is left alone |
| Vpn.VpnModel.ServiceUnregistered | src/vpnmodel.cpp:429-436 | the list is cleared and unpopulated; every proxy is deleted but stays in the table, so later calls go to a dangling proxy |
| Vpn.VpnModel.FetchNext | src/vpnmodel.cpp:776-781 | one pass of the loop adds the next connection's path, a live proxy for it and its token, keeping name order when its update changes the new record |
| Vpn.VpnModel.AppendFetched | src/vpnmodel.cpp:769-781 | each fetched connection adds a record and a live proxy, and the reply's tokens are collected; the list stays in name order when every update changes its new record |
| Vpn.VpnModel.FetchCompleted | src/vpnmodel.cpp:754-788 | on success the reply's paths are added (a path already listed is then listed twice) and unknown token files are removed; on failure nothing changes; either way the model is populated |
| Vpn.VpnModel.PropertyChanged | src/vpnmodel.cpp:811-815 | the record the path's current proxy was made for, if still listed, gets the converted property; order and best state are kept |
| Vpn.VpnModel.StrayPropertyChanged | src/vpnmodel.cpp:808-815 | a proxy pushed out of the table still updates the record it was made for, if still listed; order and best state are kept |
| Vpn.VpnModel.DeleteConnection | src/vpnmodel.cpp:558-579 | a `Remove` request is sent exactly when a record has the path |
| Vpn.VpnModel.ModifyConnection | src/vpnmodel.cpp:491-525 | for a known path, a remove and a create without the QML-only keys, remembering the old and new flags |
| Vpn.VpnModel.CompleteModify | src/vpnmodel.cpp:526-552 | on success a changed flag is applied to the token file or the credentials file |
| Vpn.VpnModel.ProxyRequestFor | src/vpnmodel.cpp:581-623 | activation goes to the path's proxy: issued when live, dangling when deleted, none when there is no proxy |
| Vpn.VpnModel.SetItemFlag | src/vpnmodel.cpp:637-638 | the record's flag is set, keeping order and best state |
| Vpn.VpnModel.SetToken | src/vpnmodel.cpp:630-635 | the token file exists exactly when enabled, if the file system allows and an enabled token is not empty; otherwise nothing changes |
| Vpn.VpnModel.SetAutomaticConnection | src/vpnmodel.cpp:625-643 | for a known path whose token differs, the token file follows `enabled` and the record's flag is set |
| Vpn.VpnModel.SetSynced | src/vpnmodel.cpp:659-662 | the record's `storeCredentials` flag takes the value, keeping order and best state |
| Vpn.VpnModel.SyncStoreCredentials | src/vpnmodel.cpp:650-662 | the flag follows whether a credentials file exists |
| Vpn.VpnModel.ConnectionCredentials | src/vpnmodel.cpp:645-668 | the stored credentials (all strings) when a file exists and can be read, else none; the flag follows the file |
| Vpn.VpnModel.SetConnectionCredentials | src/vpnmodel.cpp:670-682 | stores the credentials and sets the record's flag whether or not the write succeeded |
| Vpn.VpnModel.ConnectionCredentialsEnabled | src/vpnmodel.cpp:684-700 | whether a credentials file exists for a known path; the flag follows it |
| Vpn.VpnModel.RemoveStoredCredentials | src/vpnmodel.cpp:705-708 | the credentials file is removed when deletion succeeds |
| Vpn.VpnModel.DisableConnectionCredentials | src/vpnmodel.cpp:702-717 | the file is removed if deletion succeeds, and the record's flag is cleared either way |
| Vpn.VpnModel.ConnectionSettings | src/vpnmodel.cpp:719-734 | the record's properties, whose `storeCredentials` flag matches the credentials file |
| Vpn.ProcessProvisioningFile | src/vpnmodel.cpp:736-752 | only an OpenVPN profile that can be opened is imported; otherwise the result is empty |
| Udisks2.InterfacesDistinct | src/udisks2block.cpp:293-315 | the four interface names are distinct, so each branch of add and remove is taken for one name |
| Udisks2.Count | src/udisks2block.cpp:283-291 | a character occurs at most as many times as the string is long |
| Udisks2.SectionFromSeparators | src/udisks2block.cpp:283-291 | `SectionFrom`, `section(sep, n)`: the suffix after the n-th separator, or empty with fewer separators |
| Udisks2.SectionSkipsField | src/udisks2block.cpp:283-291 | skipping a separator-free field moves the section on by one |
| Udisks2.SectionAfterFirstField | src/udisks2block.cpp:283-291 | section 1 is the text after the first separator |
| Udisks2.SectionAfterFiveFields | src/udisks2block.cpp:283-291 | after five separator-free fields the section is the rest of the path |
| Udisks2.CryptoBackingDevicePathOf | src/udisks2block.cpp:283-291 | the path is a `/dev/` node exactly for an object path that is neither empty nor `/` |
| Udisks2.BackingPathOfBlockDevice | src/udisks2block.cpp:283-291 | the backing path of `/org/freedesktop/UDisks2/block_devices/<name>` is `/dev/<name>` |
| Udisks2.GuessConnectionBus | src/udisks2block.cpp:109-126 | the drive's bus is kept when it is `/` or there is no backing device; otherwise the bus is guessed from the backing device node |
| Udisks2.ContainsSkip | src/udisks2block.cpp:117 | a leading character that cannot start the needle does not change a containment test |
| Udisks2.DevNodeContainsMmc | src/udisks2block.cpp:117 | `mmcblk` occurs in `/dev/<name>` exactly when it occurs in the name |
| Udisks2.DevNodeStartsWithSd | src/udisks2block.cpp:119 | `/dev/<name>` starts with `/dev/sd` exactly when the name starts with `sd` |
| Udisks2.ConnectionBusOfBlockDevice | src/udisks2block.cpp:109-126 | an MMC card's bus is `sdio`, a SCSI disk's `usb`, anything else `ieee1394` |
| Udisks2.RunMountPath | src/udisks2block.cpp:388-393 | the first mount point under `/run`, or empty exactly when none is under it |
| Udisks2.IsExternalDevice | src/udisks2block.cpp:225-229 | a device is external exactly when it is neither `/dev/sailfish/home` nor `/dev/sailfish/root` |
| Udisks2.MountPoints | src/udisks2block.cpp:384-385 | the filesystem's `MountPoints` list, empty when the property is absent |
| Udisks2.Block.constructor | src/udisks2block.cpp:10-77 | without block properties, block, filesystem and encrypted are requested; with them, the mount path is taken and the drive is requested |
| Udisks2.Block.IsCryptoBlock | src/udisks2block.cpp:143-146 | encrypted, or backed by a crypto device |
| Udisks2.Block.HasCryptoBackingDevice | src/udisks2block.cpp:148-152 | there is a backing device exactly when its `/dev/` path is not empty |
| Udisks2.Block.CryptoBackingDevicePath | src/udisks2block.cpp:154-158 | a `/dev/` node, or empty when the backing object path is `/` |
| Udisks2.Block.ConnectionBus | src/udisks2block.cpp:109-126 | the drive's bus without a backing device; with one and a bus other than `/`, one of `sdio`, `usb`, `ieee1394` |
| Udisks2.Block.IsExternal | src/udisks2block.cpp:225-229 | the preferred device is neither the home nor the root partition |
| Udisks2.Block.SetEncrypted | src/udisks2block.cpp:170-178 | the flag takes the value; the result says whether it changed |
| Udisks2.Block.SetMountable | src/udisks2block.cpp:185-193 | the flag takes the value; the result says whether it changed |
| Udisks2.Block.SetFormatting | src/udisks2block.cpp:200-208 | the flag takes the value; the result says whether it changed |
| Udisks2.Block.SetLocking | src/udisks2block.cpp:215-218 | the block is marked as locking |
| Udisks2.Block.ClearFormattingState | src/udisks2block.cpp:416-422 | only a completed, mountable block stops formatting |
| Udisks2.Block.Complete | src/udisks2block.cpp:409-414 | once nothing is pending and the block is mountable, it is not formatting |
| Udisks2.Block.SelectMountPath | src/udisks2block.cpp:388-393 | the loop picks the first mount point under `/run`, or empty |
| Udisks2.Block.UpdateMountPoint | src/udisks2block.cpp:382-407 | the mount path follows the filesystem's mount points, the block becomes mountable, and a completed block stops formatting |
| Udisks2.Block.GetDriveProperties | src/udisks2block.cpp:470-477 | the drive request becomes pending |
| Udisks2.Block.FileSystemReplied | src/udisks2block.cpp:432-445 | the block is mountable exactly when the request succeeded, with the mount path from the reply |
| Udisks2.Block.EncryptedReplied | src/udisks2block.cpp:456-467 | the block is encrypted exactly when the request succeeded |
| Udisks2.Block.BlockReplied | src/udisks2block.cpp:47-62 | on success the properties are taken and the drive is requested |
| Udisks2.Block.DriveReplied | src/udisks2block.cpp:478-494 | on failure the drive properties are emptied |
| Udisks2.Block.AddInterface | src/udisks2block.cpp:293-301 | the properties are recorded; a filesystem makes the block mountable, an encrypted interface encrypted |
| Udisks2.Block.RemoveInterface | src/udisks2block.cpp:303-315 | losing the block or drive interface empties its properties; losing the filesystem or encrypted interface clears its flag |
| Udisks2.Block.MergeChanged | src/udisks2block.cpp:365-367 | the changed block properties are written over the old ones |
| Udisks2.Block.BlockPropertiesChanged | src/udisks2block.cpp:359-369 | the changed properties are merged, a completed mountable block stops formatting, and the external flag changes only with `PreferredDevice` |
| Udisks2.Block.UpdateProperties | src/udisks2block.cpp:359-375 | block changes are merged, filesystem changes give a new mount path, other interfaces are ignored |
| Udisks2.Block.TakeProperties | src/udisks2block.cpp:332-347 | path, interfaces, properties and mount path are copied from the other block |
| Udisks2.Block.TakeFlags | src/udisks2block.cpp:348-352 | the four flags are copied from the other block |
| Udisks2.Block.Morph | src/udisks2block.cpp:317-357 | every field but the pending requests is taken over; a formatting block on a backing device yields the backing path to rescan; morphing into itself changes nothing |

## Findings

| source | as written | input that shows it | evidently intended | confidence | as-written member | corrected member |
|---|---|---|---|---|---|---|
| src/vpnmodel.cpp:995-997 | after checking that the argument list is not empty, the file path of `ca`, `cert`, `key` and `auth-user-pass` is taken from `arguments.at(1)`, the second argument | the profile line `ca ca.crt`: one argument, so `at(1)` reads past the end of the list; with `ca ca.crt extra` the setting becomes `extra` | the first argument, `arguments.at(0)`, the file the directive names | high, not executed | Importer.FileArgumentAsWritten (counterexample: Importer.SoleFileArgumentOutOfRange) | Importer.FileArgument, used by Importer.DirectiveEffect and proved in Importer.FileDirective |

## Left out

- QVariant is a small tagged union (bool, int, string, string list, map). D-Bus demarshalling of the structured properties (`IPv4`, `IPv6`, `ServerRoutes`, `UserRoutes`) is not modelled, and neither are byte arrays or object-path lists. `PreferredDevice` and the `MountPoints` entries are plain strings.
- Case mapping is ASCII only. QString's Unicode case folding is not modelled.
- A null QString and an empty one are told apart only where it shows: `toString` of a map or of a multi-element list, and the stream's null marker.
- File-system outcomes are parameters: whether a write, a deletion, a directory creation or a read succeeds. So are the SHA-1 digest of embedded content and the profile's directory.
- Importer.Resolve: joins a relative path to the directory without `QDir` path cleaning (`..`, `.`, doubled slashes).
- The ObjectListModel base class is not part of this model. `updateItem` is the merge of the update into the record's properties, and the item roles are the record's property map.
- The D-Bus transport is left out, and so are the signals it carries (`connectionsChanged`, `bestStateChanged`, `updated`, `mountPathChanged` and the like). Each incoming signal and reply is a method of the class.
- Udisks2.Block.Complete: the queued `completed` signal is handled at once. The `rescan` that `morph` triggers is returned as a backing path rather than issued.
- The replies to `createConnection`, `deleteConnection`, `activate` and `deactivate` are left out, because they only log.
- Destructors and `Block`'s copy assignment operator are left out. `morph` is modelled, and it uses the same field copy.
- The trivial `Block` getters are left out, or are only the field reads they are: `device`, `preferredDevice`, `drive`, `deviceNumber`, `id`, `size`, `isReadOnly`, `idType`, `idVersion`, `idLabel`, `idUUID`, `isValid`, `isCompleted`, `hasData`, `value` and `dumpInfo`. `Udisks2.Block.IsValid` and `Udisks2.Block.IsCompleted` carry no contract of their own, as one would only repeat the read.
- Proxies that `ConnectionRemoved` deletes and `ServiceUnregistered` leaves dangling are modelled as table entries. Memory itself is not modelled.
- Vpn.VpnModel.FetchCompleted: after a fetch that repeats a listed path, the path is listed twice. This follows the code. The contract states the path multiset rather than the list order.
- Vpn.VpnModel.ConnectionRemoved: the best state is left as it was, as the code does. `Vpn.RemovalCanLeaveBestStateStale` shows that it can then be stale, so the class does not claim the best state stays current after a removal.
- Credentials.CredentialsRepository.StoreCredentials: an empty location names the directory itself, which cannot be opened as a file, so storing there fails.
- Credentials.CredentialsRoundTrip: holds only for maps whose keys and value strings fit a 32-bit length field. The return value is the string form of each value, not the value itself, as the code stores only `toString()`.
- src/vpnmodel.h, src/udisks2defines.h and src/udisks2block_p.h are not part of this model. Enumeration values follow declaration order, and the interface names are those of the UDisks2 D-Bus API (`org.freedesktop.UDisks2.Block` and its siblings).
- Credentials.CredentialsRepository.StoreCredentials and TokenRepository.TokenFileRepository.EnsureToken: the directory is not modelled, so the empty name is the only name that cannot be opened as a file.
- ConnectionList.InitialConnection: the defaults cover the properties the model reads (`name`, `state`, `type`, `automaticUpDown`, `storeCredentials`). A new record's other Q_PROPERTY defaults are not modelled, so an update that writes one of them at its default counts as a change.
- Vpn.VpnModel.FetchCompleted: the list stays in name order only when every connection's update changes its new record. An update that writes only defaults leaves the new record last, as the code does, and `ConnectionList.DefaultsLeaveNewRecordLast` shows that this can break the order.
- PropertyTranslator.EntryEquals: an int and a string compare equal only when the string is the int's canonical decimal form. Qt also accepts surrounding white space, a sign and leading zeros (`" 3"`, `"+3"`, `"03"`).
- Vpn.VpnModel.StrayPropertyChanged: a proxy that `newConnection` pushed out of the table keeps its connection, and so does a stray after its record is removed. The code then updates a deleted `VpnConnection`. The model finds records by identity and ignores the signal once its record is gone; memory is not modelled.
