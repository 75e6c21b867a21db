# chatgpt_awesome_actions: the execution-and-publication pipeline in Dafny

This project models the data-module actions of `chatgpt_awesome_actions`. A
client submits a code snippet. The server runs it, takes the value the
snippet bound to `__retval__` and walks it. Every string in the value that
starts with `/tmp/` is replaced by a public URL: the file or directory it
names is copied into the save directory under an obfuscated name
(`<uuid4 hex>_<basename>`) and the original is removed. The answer is the
rendered, rewritten value tagged `text/uri-list`. Progress is reported to a
monitor: the code, "Running...", then either the error or an HTML page that
lists every published URL with an image or an escaped preview.

The model is organised as follows:

- `common.dfy` (`Common`): `Option` and `Result`.
- `paths.dfy` (`Paths`): the POSIX path operations the pipeline depends on.
  These are `str.startswith`, `str.endswith`, `os.path.basename`, the
  two-argument `os.path.join`, `str.split('/')`, `'/'.join`,
  `posixpath.normpath` and `os.path.abspath` (the working directory is a
  parameter).
- `filestore.dfy` (`FileStore`): the filesystem. It is a map from canonical
  absolute paths to nodes: a regular file (its text, and whether reading it
  succeeds), a directory (copied and removed as a unit), or any other
  existing node. It also defines the 5000-character preview read.
- `translate.dfy` (`Translate`): the two path translators,
  `_convert_tmp_to_save_path` and `_convert_public_to_save_path`. The random
  uuid is supplied as a token.
- `values.dfy` (`Values`): the dynamically typed values a snippet can return
  (str, list, tuple, set, dict, anything else). Also the strings the walk
  visits, in visit order.
- `publish.dfy` (`Publish`): `_deep_publish_tmp_paths`.
  - `PublishValue` and its companions define the walk as pure functions over
    a state made of the filesystem, the number of uuids drawn and the shared
    `changed_strings` list.
  - The class `Publisher` performs the same walk in place: its methods update
    the filesystem field and append to the list field. Each method is proved
    equal to the functional walk.
- `publish_props.dfy` (`PublishProps`): what the walk guarantees:
  - identity when no scratch path is visited;
  - the shape of the value is preserved;
  - one token and one `(preview, url)` pair per visited scratch path, in
    visit order;
  - the preview rules;
  - the source is removed when the string as written resolves, so a second
    publication of the same path raises "File not found";
  - a spelling that does not resolve (such as a trailing `/` after a file)
    moves nothing.
- `publish_effects.dfy` (`PublishEffects`): what a whole walk does:
  - each visited scratch path is replaced by the URL of its own pair;
  - only the sources and destinations of visited scratch paths change;
  - the published files and directories are gone from their sources.
- `html.dfy` (`Html`): `html.escape(s, quote=True)`.
  - It is defined as the five successive `replace` passes CPython performs.
  - It is proved equal to a character-by-character form.
  - The output is proved free of markup characters.
  - The output is proved invertible.
- `actions.dfy` (`Actions`):
  - `echo` and `_exec_python_code`;
  - the monitor page loop;
  - `exec_python_code` as a method over a `Publisher`, proved equal to the
    function `ExecPythonCodeRun`, together with lemmas on its outcomes.

The Python interpreter services (`exec`, `str`, `ast.literal_eval`) are
parameters, collected in the `Runtime` datatype. The uuid stream is a
function from the draw number to a token. The monitor calls are recorded as a
sequence of `Notice` values.

## Model

| member | source | states |
|---|---|---|
| Paths.Basename | chatgpt_awesome_actions_datamodules/actions.py:162 | `os.path.basename`: the result has no '/', is a suffix of the path, and is either the whole path or directly preceded by '/' |
| Paths.Join | chatgpt_awesome_actions_datamodules/actions.py:165 | `os.path.join(a, b)`: an absolute `b` replaces `a`; otherwise the result starts with `a` and ends with `b` |
| Paths.BasenameAfterSlash | chatgpt_awesome_actions_datamodules/actions.py:198 | the base name of a directory with a slash-free name appended is that name |
| Paths.JoinBasename | chatgpt_awesome_actions_datamodules/actions.py:200 | joining a slash-free name onto a directory gives a path under that directory whose base name is the name |
| Paths.Split | chatgpt_awesome_actions_datamodules/actions.py:189 | `str.split('/')` gives at least one piece, and no piece contains '/' |
| Paths.SplitConcat | chatgpt_awesome_actions_datamodules/actions.py:189 | splitting `a + "/" + b` gives the pieces of `a` followed by the pieces of `b` |
| Paths.JoinSplit | chatgpt_awesome_actions_datamodules/actions.py:189 | `'/'.join(s.split('/')) == s` |
| Paths.SplitJoin | chatgpt_awesome_actions_datamodules/actions.py:189 | splitting a slash-free component list joined with '/' gives the list back |
| Paths.NormCompsAppend | chatgpt_awesome_actions_datamodules/actions.py:189 | the normpath component loop over `xs + ys` is the loop over `ys` started from the result over `xs` |
| Paths.NormCompsRootedPlain | chatgpt_awesome_actions_datamodules/actions.py:189 | for a rooted path, the normpath loop leaves only plain components (no "", ".", "..") |
| Paths.NormCompsOfPlain | chatgpt_awesome_actions_datamodules/actions.py:189 | plain components pass through the normpath loop unchanged |
| Paths.NormPathRooted | chatgpt_awesome_actions_datamodules/actions.py:189 | a rooted path normalises to its kept leading slashes followed by plain components |
| Paths.NormPathIdempotent | chatgpt_awesome_actions_datamodules/actions.py:189 | normpath of a rooted path is rooted, and normalising it again changes nothing |
| Paths.AbsPathIdempotent | chatgpt_awesome_actions_datamodules/actions.py:189 | with an absolute working directory, abspath is rooted and idempotent |
| Paths.AbsPathOfRooted | chatgpt_awesome_actions_datamodules/actions.py:189 | abspath of a rooted path is its normpath, independent of the working directory |
| Paths.NormPath | chatgpt_awesome_actions_datamodules/actions.py:189 | `posixpath.normpath`: leading slashes kept as POSIX does (one, two, or one for three or more), then the components with "", "." dropped and ".." cancelling the previous one; "." for an empty result. Its laws are the NormPath and NormComps lemmas above |
| Paths.AbsPath | chatgpt_awesome_actions_datamodules/actions.py:189 | `os.path.abspath`: normpath of the path, joined to the working directory first when relative; pinned down by AbsPathOfRooted and AbsPathIdempotent |
| Paths.JoinSlashConcat | chatgpt_awesome_actions_datamodules/actions.py:189 | `"/".join` over `xs + ys` is the join of `xs`, a slash, and the join of `ys` |
| Paths.AbsPathJoinBasename | chatgpt_awesome_actions_datamodules/actions.py:198-200 | the base name of the resolved `join(SAVE_FILE_DIR, name)` is `name` for any plain name, whatever the directory |
| FileStore.ReadPreview | chatgpt_awesome_actions_datamodules/actions.py:306-310 | the preview is at most 5000 characters; a readable file gives a prefix of its text (all of it, or exactly 5000 characters); an unreadable file gives "Error while reading file" |
| FileStore.RawResolves | chatgpt_awesome_actions_datamodules/actions.py:304-315 | what `isfile(data)`/`isdir(data)` see on the string as written: every component before a `..` and every component followed by more text must name a directory (held as one or lying above a held path) |
| FileStore.CanonicalResolves | chatgpt_awesome_actions_datamodules/actions.py:304-315 | a scratch path spelled as its own normpath, held in the filesystem with only directories above it, is found by the raw lookup |
| FileStore.CanonicalWalks | chatgpt_awesome_actions_datamodules/actions.py:167 | any rooted path spelled as its own normpath, held in the filesystem with only directories above it, is found by the raw lookup, which is how `os.path.exists` sees a joined path in the save directory |
| FileStore.TrailingSlashAfterFile | chatgpt_awesome_actions_datamodules/actions.py:304-315 | `/d/f/` normalises to `/d/f`, yet when `/d/f` is a regular file the raw lookup of `/d/f/` fails (ENOTDIR) |
| FileStore.Exists | chatgpt_awesome_actions_datamodules/actions.py:194 | `os.path.exists` on the path the translator has normalised itself: a node is held at the abspath as a key; `ConvertTmpToSavePath` raises SourceNotFound exactly when it fails |
| FileStore.ExistsAsWritten | chatgpt_awesome_actions_datamodules/actions.py:165-167 | `os.path.exists` on the unnormalised join: a node is held at its normpath and the string as written walks (RawResolves); CanonicalWalks gives it for a path in normal form with only directories above it |
| Translate.ConvertTmpToSavePath | chatgpt_awesome_actions_datamodules/actions.py:173-203 | NotInTmp exactly when the abspath does not start with "/tmp/"; SourceNotFound exactly when it does but does not exist; on success the source exists, the name is `token_basename`, and the path is that name joined onto the save directory; with a real uuid hex token the name has no '/' and is the destination's base name |
| Translate.ConvertPublicToSavePath | chatgpt_awesome_actions_datamodules/actions.py:148-170 | PrefixMismatch exactly when URL_PREFIX is missing; NotInSaveDir exactly when the prefix is present but `SAVE_FILE_DIR/basename(url)`, taken as written, does not exist (the node at its normpath must be held and the unnormalised string must walk); on success the result is exactly that joined path, which exists as written, whose text starts with SAVE_FILE_DIR and whose base name is the URL's (which is not containment: see the rows below) |
| Translate.PublicDotDot | chatgpt_awesome_actions_datamodules/actions.py:161-170 | the URL `URL_PREFIX + "/.."` translates to `SAVE_FILE_DIR/..`, the save directory's parent, whenever that exists as written |
| Translate.PublicTrailingSlash | chatgpt_awesome_actions_datamodules/actions.py:161-170 | a URL ending in `/` has an empty base name and, when the directory exists as written, translates to `SAVE_FILE_DIR` itself (with at most a trailing `/` added) |
| Translate.PublicTrailingSlashOverFile | chatgpt_awesome_actions_datamodules/actions.py:161-170 | when SAVE_FILE_DIR is `/d` and a regular file, `SAVE_FILE_DIR/` resolves to that file by normpath, yet a URL ending in `/` is refused with NotInSaveDir (ENOTDIR) |
| Translate.PublicDotDotOverFile | chatgpt_awesome_actions_datamodules/actions.py:161-170 | when SAVE_FILE_DIR is `/d` and a regular file, `URL_PREFIX + "/.."` is refused with NotInSaveDir, whatever the parent holds |
| Translate.PublicNameHasNoSlash | chatgpt_awesome_actions_datamodules/actions.py:199 | a uuid hex token, '_' and a slash-free base name form a slash-free file name |
| Translate.PublicName | chatgpt_awesome_actions_datamodules/actions.py:199 | `f"{uuid.uuid4().hex}_{src_filename}"` with the uuid text as a token; its laws are PublicNameParts and PublicNameHasNoSlash |
| Translate.PublicNameParts | chatgpt_awesome_actions_datamodules/actions.py:199 | the destination name is the token, then '_', then the source base name, each recovered by position |
| Translate.PublicUrl | chatgpt_awesome_actions_datamodules/actions.py:317 | `os.path.join(URL_PREFIX, dst_filename)`; its laws are PublicUrlParts and the round-trip lemmas |
| Translate.PublicUrlParts | chatgpt_awesome_actions_datamodules/actions.py:317 | for a slash-free destination name the URL starts with URL_PREFIX and its base name is that name |
| Translate.PublicUrlRoundTrip | chatgpt_awesome_actions_datamodules/actions.py:158-170 | once the copy exists as written, the URL published for a converted scratch path (lines 197-203 and 317) translates back to exactly its destination path |
| Translate.PublicUrlNeedsCopy | chatgpt_awesome_actions_datamodules/actions.py:167-168 | without the copy at the destination (as the operating system finds it), the published URL fails to translate back with NotInSaveDir |
| Translate.DestinationDiffers | chatgpt_awesome_actions_datamodules/actions.py:189-200 | with a uuid hex token the destination never resolves to the source: its base name is 33 characters longer |
| Translate.NormTrailingSlash | chatgpt_awesome_actions_datamodules/actions.py:189 | "/d/" normalises to "/d" |
| Translate.RejectsBareTmp | chatgpt_awesome_actions_datamodules/actions.py:189-191 | "/tmp/" itself is rejected with NotInTmp, because abspath drops the trailing slash |
| Translate.OutsideTmp | chatgpt_awesome_actions_datamodules/actions.py:190 | a rooted path whose first component is not "tmp" fails the "/tmp/" prefix test |
| Translate.NormParentEscape | chatgpt_awesome_actions_datamodules/actions.py:189 | in "/x/../dir/name" the ".." cancels "x" |
| Translate.RejectsParentEscape | chatgpt_awesome_actions_datamodules/actions.py:189-191 | "/tmp/../dir/name" with dir other than "tmp" is rejected with NotInTmp, although the raw string starts with "/tmp/" |
| Translate.RejectsEtcExample | chatgpt_awesome_actions_datamodules/actions.py:189-191 | "/tmp/../etc/x" passes the raw prefix test but normalises to "/etc/x" and is rejected with NotInTmp |
| Values.Keys | chatgpt_awesome_actions_datamodules/actions.py:346 | the keys of a dict's items, in order |
| Values.ScratchPaths | chatgpt_awesome_actions_datamodules/actions.py:299 | the filtered strings all start with "/tmp/" and are no more than the input |
| Values.ScratchPathsAppend | chatgpt_awesome_actions_datamodules/actions.py:299 | the filter distributes over concatenation, so visit order is kept |
| Values.ScratchPathsMembers | chatgpt_awesome_actions_datamodules/actions.py:299 | the filter is empty if and only if no visited string starts with "/tmp/" |
| Values.IsScratchPath | chatgpt_awesome_actions_datamodules/actions.py:299 | `data.startswith('/tmp/')` on the string as written, before any normalisation; the walk filters visited strings with it (ScratchPaths) |
| Publish.MoveNode | chatgpt_awesome_actions_datamodules/actions.py:303-315 | the copy, preview and remove branches at a resolved key; its effect is stated by PublishProps.MoveNodeEffect; a file copied onto an existing directory replaces it (see Left out) |
| Publish.MoveRaw | chatgpt_awesome_actions_datamodules/actions.py:303-315 | `MoveNode` when the string as written resolves, and otherwise the neither-file-nor-directory branch: empty preview, nothing moved |
| Publish.PublishStr | chatgpt_awesome_actions_datamodules/actions.py:298-321 | the string case: a non-scratch string is kept; a scratch string is translated on its normalised path, then copied, previewed and removed on the string as written, replaced by its URL and recorded; its contract is given by PublishProps.PublishStrFails, PublishStrSucceeds and PublishStrUnresolved |
| Publish.PublishValue | chatgpt_awesome_actions_datamodules/actions.py:281-352 | the walk, dispatching on the kind of value; its properties are the PublishProps and PublishEffects lemmas |
| Publish.PublishItems | chatgpt_awesome_actions_datamodules/actions.py:323-342 | the element loop of a list, tuple or set, stopping at the first exception; sets drop an element already present |
| Publish.PublishEntries | chatgpt_awesome_actions_datamodules/actions.py:344-349 | the items loop of a dict: keys kept, values walked, stopping at the first exception |
| Publish.PublishEntry | chatgpt_awesome_actions_datamodules/actions.py:347 | one dict item: its value is walked by `PublishValue` and its key is never visited; stated by the Entry lemmas of PublishProps and PublishEffects |
| Publish.AddItem | chatgpt_awesome_actions_datamodules/actions.py:327-341 | `list.append` for lists and tuples (lines 327 and 334) and `set.add` for sets (line 341), which ignores an element already present; stated by AddItemMembers |
| Publish.AddItemMembers | chatgpt_awesome_actions_datamodules/actions.py:327-341 | the result holds exactly the earlier elements and the new one; a list or tuple gets it appended at the end; a set of distinct elements stays distinct |
| Publish.ItemsFailurePersists | chatgpt_awesome_actions_datamodules/actions.py:325-341 | once an element raises, the rest of the loop does not run |
| Publish.EntriesFailurePersists | chatgpt_awesome_actions_datamodules/actions.py:346-348 | once a value raises, the rest of the loop does not run |
| Publish.Publisher.PublishTmpPaths | chatgpt_awesome_actions_datamodules/actions.py:295-296 | a fresh shared list, then the walk; the result, the returned list and the new state are those of `PublishValue` from an empty list |
| Publish.Publisher.PublishString | chatgpt_awesome_actions_datamodules/actions.py:298-321 | the in-place string case, which copies, previews and removes only when the string as written resolves, yields the result and new state of `PublishStr` |
| Publish.Publisher.PublishConverted | chatgpt_awesome_actions_datamodules/actions.py:300-321 | after a successful conversion, drawing the token, moving the node as written and appending the pair yield the result and new state of `PublishStr` |
| Publish.Publisher.MoveAsWritten | chatgpt_awesome_actions_datamodules/actions.py:304-315 | the `isfile`/`isdir` tests on the string as written: the node moves as in `MoveNode` when the raw string resolves, and nothing changes (empty preview) when it does not |
| Publish.Publisher.MoveIn | chatgpt_awesome_actions_datamodules/actions.py:303-315 | the in-place copy, preview and remove yield the preview and filesystem of `MoveNode`; the token count and list are unchanged |
| Publish.Publisher.Publish | chatgpt_awesome_actions_datamodules/actions.py:281-352 | the in-place walk yields the result and new state of `PublishValue` |
| Publish.Publisher.PublishAll | chatgpt_awesome_actions_datamodules/actions.py:323-342 | the in-place list/tuple/set loop yields the result and new state of `PublishItems` |
| Publish.Publisher.PublishDict | chatgpt_awesome_actions_datamodules/actions.py:344-349 | the in-place dict loop yields the result and new state of `PublishEntries` |
| Publish.Publisher.PublishDictValue | chatgpt_awesome_actions_datamodules/actions.py:347 | the in-place walk of one dict value yields the result and new state of `PublishEntry` |
| PublishProps.PublishStrFails | chatgpt_awesome_actions_datamodules/actions.py:189-195 | a failing conversion raises NotInTmp exactly when the abspath is outside "/tmp/" and SourceNotFound exactly when it is inside; nothing changes |
| PublishProps.PublishStrSucceeds | chatgpt_awesome_actions_datamodules/actions.py:298-319 | a converted string that the operating system finds as written becomes `join(URL_PREFIX, token_basename)`; one token drawn; one pair (preview of the moved node, url) appended; the filesystem is the moved one |
| PublishProps.PublishStrUnresolved | chatgpt_awesome_actions_datamodules/actions.py:298-319 | a converted string that the operating system does not find as written still becomes its URL and draws a token, but the pair's preview is empty and the filesystem is unchanged |
| PublishProps.TrailingSlashLeavesFile | chatgpt_awesome_actions_datamodules/actions.py:189-319 | `/tmp/name/` with `/tmp/name` a regular file: the translator accepts it, yet the file stays and the preview is empty |
| PublishProps.MoveNodeEffect | chatgpt_awesome_actions_datamodules/actions.py:303-315 | preview rules: a file's preview is `ReadPreview` of it; a readable file gives a prefix of its text of at most 5000 characters (all of it, or exactly 5000), unreadable gives the error marker, directory gives the directory marker; a file or directory is removed from its source and copied to the destination, replacing whatever node was there (for a directory destination `shutil.copy` would copy into it instead, see Left out); any other node is left alone with an empty preview; every other path is untouched |
| PublishProps.PublishedCopyRoundTrip | chatgpt_awesome_actions_datamodules/actions.py:298-319 | after a file or directory is published to a destination written in normal form with only directories above it, the returned URL translates back (lines 148-170) to the destination path, and the node there is the one moved from the source |
| PublishProps.CopyWalks | chatgpt_awesome_actions_datamodules/actions.py:304-315 | a copy placed at such a destination exists there as written after the move |
| PublishProps.ConvertedSourceExists | chatgpt_awesome_actions_datamodules/actions.py:194-195 | a scratch path that converts names an existing node |
| PublishProps.RepublishFails | chatgpt_awesome_actions_datamodules/actions.py:194-195 | after a file or directory is published from a spelling the operating system finds, publishing any spelling of the same path raises SourceNotFound and changes nothing |
| PublishProps.UnresolvedRepublishes | chatgpt_awesome_actions_datamodules/actions.py:189-195 | after a spelling the operating system does not find, any spelling of the same path still converts |
| PublishProps.DuplicateInListFails | chatgpt_awesome_actions_datamodules/actions.py:323-328 | a list naming the same scratch file twice, in a spelling the operating system finds, fails with SourceNotFound at the second occurrence |
| PublishProps.DuplicateTrailingSlashPublishesTwice | chatgpt_awesome_actions_datamodules/actions.py:323-328 | `["/tmp/name/", "/tmp/name/"]` with `/tmp/name` a regular file publishes both elements, adds two pairs and moves nothing |
| PublishProps.ValueUnchanged | chatgpt_awesome_actions_datamodules/actions.py:281-352 | a well-formed value none of whose visited strings starts with "/tmp/" comes back equal, and the state is unchanged |
| PublishProps.ItemsUnchanged | chatgpt_awesome_actions_datamodules/actions.py:323-342 | the element loop over such elements rebuilds them equal, and the state is unchanged |
| PublishProps.EntriesUnchanged | chatgpt_awesome_actions_datamodules/actions.py:344-349 | the items loop over such entries rebuilds them equal, and the state is unchanged |
| PublishProps.EntryUnchanged | chatgpt_awesome_actions_datamodules/actions.py:347 | such a dict value comes back equal |
| PublishProps.ValueShape | chatgpt_awesome_actions_datamodules/actions.py:281-352 | a completed walk keeps the shape: non-scratch strings and opaque values are kept; scratch strings stay strings; lists and tuples keep kind, length and order; dicts keep their keys in order; a rebuilt set holds only images of original elements |
| PublishProps.ItemsShapeKept | chatgpt_awesome_actions_datamodules/actions.py:323-342 | the rebuilt element list keeps length and order (or, for a set, only images of the elements) |
| PublishProps.EntriesShapeKept | chatgpt_awesome_actions_datamodules/actions.py:344-349 | the rebuilt items keep their keys in order, and each value keeps its shape |
| PublishProps.EntryShapeKept | chatgpt_awesome_actions_datamodules/actions.py:347-348 | one rebuilt dict item keeps its key and its value's shape |
| PublishProps.Urls | chatgpt_awesome_actions_datamodules/actions.py:318 | the URL column of the shared list, by index |
| PublishProps.UrlsAppend | chatgpt_awesome_actions_datamodules/actions.py:318 | the URL column distributes over appends |
| PublishProps.BuildUrls | chatgpt_awesome_actions_datamodules/actions.py:317 | one expected URL per path, numbered by token |
| PublishProps.BuildUrlsAt | chatgpt_awesome_actions_datamodules/actions.py:317 | the i-th expected URL uses the i-th path and the i-th token after those drawn |
| PublishProps.BuildUrlsAppend | chatgpt_awesome_actions_datamodules/actions.py:317 | expected URLs of `a + b` are those of `a` then those of `b`, numbered on |
| PublishProps.AccountsChain | chatgpt_awesome_actions_datamodules/actions.py:326 | two successive walks that account for `a` and then `b` together account for `a + b` |
| PublishProps.AccountsUrlAt | chatgpt_awesome_actions_datamodules/actions.py:318 | in an accounted walk, the i-th new pair carries the URL of the i-th path and token |
| PublishProps.StrAccounts | chatgpt_awesome_actions_datamodules/actions.py:298-321 | a string step draws one token and appends one pair with its URL when it is a scratch path; otherwise nothing |
| PublishProps.ValueAccounts | chatgpt_awesome_actions_datamodules/actions.py:281-352 | a completed walk draws one token per visited scratch path, keeps the earlier pairs, and appends one pair per path in visit order with that path's URL |
| PublishProps.ItemsAccounts | chatgpt_awesome_actions_datamodules/actions.py:323-342 | the same for the element loop |
| PublishProps.EntriesAccounts | chatgpt_awesome_actions_datamodules/actions.py:344-349 | the same for the items loop (keys are never visited) |
| PublishProps.EntryAccounts | chatgpt_awesome_actions_datamodules/actions.py:347 | the same for one dict value |
| PublishProps.PublishedWalk | chatgpt_awesome_actions_datamodules/actions.py:281-352 | a completed walk keeps the shape and draws one token and one pair per visited scratch path; pair `i` has URL `join(URL_PREFIX, token_i + "_" + basename(abspath(path_i)))` |
| PublishEffects.RewrittenAppend | chatgpt_awesome_actions_datamodules/actions.py:323-327 | the rewriting of `a + b` is that of `a` followed by that of `b`, numbered on from the scratch paths of `a` |
| PublishEffects.RewrittenAt | chatgpt_awesome_actions_datamodules/actions.py:298-321 | the j-th rewritten string is the URL for the j-th string, numbered by the scratch paths before it, when it is a scratch path, and the string itself otherwise |
| PublishEffects.PublishStrUrl | chatgpt_awesome_actions_datamodules/actions.py:300-321 | a converted scratch path is replaced by the public URL built from the drawn token and its basename, and exactly one token is drawn |
| PublishEffects.PublishStrFs | chatgpt_awesome_actions_datamodules/actions.py:300-315 | a converted scratch path moves the node from its own resolved path to its resolved destination (as written), and exactly one token is drawn |
| PublishEffects.StrRewrites | chatgpt_awesome_actions_datamodules/actions.py:298-321 | one string step returns the string rewritten: its URL when it is a scratch path, itself otherwise |
| PublishEffects.ValueRewrites | chatgpt_awesome_actions_datamodules/actions.py:281-352 | for a value without sets, the strings of the result, in visit order, are those of the input with each scratch path replaced by the URL of its token (numbered in visit order); one token is drawn per scratch path |
| PublishEffects.ItemsRewrite | chatgpt_awesome_actions_datamodules/actions.py:323-334 | the same for the list and tuple element loop |
| PublishEffects.EntriesRewrite | chatgpt_awesome_actions_datamodules/actions.py:344-349 | the same for the dict items loop |
| PublishEffects.EntryRewrites | chatgpt_awesome_actions_datamodules/actions.py:347 | the same for one dict value |
| PublishEffects.PublishedStrings | chatgpt_awesome_actions_datamodules/actions.py:281-352 | for a value without sets, the i-th visited scratch path is replaced in the result by the URL of the i-th new pair of the shared list, and every other visited string is kept |
| PublishEffects.TouchesChain | chatgpt_awesome_actions_datamodules/actions.py:323-327 | two successive walks that change only the sources and destinations of `a` and then of `b` change only those of `a + b` |
| PublishEffects.MoveRawFrame | chatgpt_awesome_actions_datamodules/actions.py:303-315 | the copy, preview and remove step changes at most its source and its destination, and adds nothing but the destination |
| PublishEffects.StrTouches | chatgpt_awesome_actions_datamodules/actions.py:298-321 | a string step changes the filesystem only at its own source and destination |
| PublishEffects.ValueTouches | chatgpt_awesome_actions_datamodules/actions.py:281-352 | a completed walk draws one token per visited scratch path; a path that is no destination holds nothing new or changed afterwards; a path that is neither a source nor a destination is still there |
| PublishEffects.ItemsTouch | chatgpt_awesome_actions_datamodules/actions.py:323-342 | the same for the element loop |
| PublishEffects.EntriesTouch | chatgpt_awesome_actions_datamodules/actions.py:344-349 | the same for the items loop |
| PublishEffects.EntryTouches | chatgpt_awesome_actions_datamodules/actions.py:347 | the same for one dict value |
| PublishEffects.WalkFrame | chatgpt_awesome_actions_datamodules/actions.py:281-352 | every path that is neither the abspath of a visited scratch path nor its destination is present after the walk exactly when it was before, with the same node |
| PublishEffects.SeparateRest | chatgpt_awesome_actions_datamodules/actions.py:323-327 | once the walk has handled `a`, the rest `b` still meets the separation conditions, and what could be moved in `b` still can |
| PublishEffects.GoneJoin | chatgpt_awesome_actions_datamodules/actions.py:323-327 | sources removed while handling `a` stay removed while handling `b`, since no destination of `b` is one of them |
| PublishEffects.ScratchGone | chatgpt_awesome_actions_datamodules/actions.py:303-315 | a scratch path spelled as its own key, with only directories above it, that held a file or directory is absent after its step |
| PublishEffects.StrGone | chatgpt_awesome_actions_datamodules/actions.py:298-321 | the same for any string step |
| PublishEffects.ValueGone | chatgpt_awesome_actions_datamodules/actions.py:281-352 | each visited scratch path that held a file or directory is gone after the walk, when the paths are spelled as their own keys with only directories above them, none comes twice, and no destination is a visited path or lies above one |
| PublishEffects.ItemsGone | chatgpt_awesome_actions_datamodules/actions.py:323-342 | the same for the element loop |
| PublishEffects.EntriesGone | chatgpt_awesome_actions_datamodules/actions.py:344-349 | the same for the items loop |
| PublishEffects.EntryGone | chatgpt_awesome_actions_datamodules/actions.py:347 | the same for one dict value |
| Html.ReplaceChar | chatgpt_awesome_actions_datamodules/actions.py:412 | one `str.replace` pass removes its character when the replacement lacks it |
| Html.EscapePasses | chatgpt_awesome_actions_datamodules/actions.py:412 | `html.escape(s, quote=True)` as CPython writes it: five successive replace passes, `&` first; PassesArePerChar relates it to `Escape` |
| Html.Escape | chatgpt_awesome_actions_datamodules/actions.py:412 | the character-by-character escape, proved equal to `EscapePasses` and inverted by `Unescape` (EscapeRoundTrip) |
| Html.ReplaceCharConcat | chatgpt_awesome_actions_datamodules/actions.py:412 | a replace pass distributes over concatenation |
| Html.PassesConcat | chatgpt_awesome_actions_datamodules/actions.py:412 | the five passes distribute over concatenation |
| Html.EscapeOne | chatgpt_awesome_actions_datamodules/actions.py:412 | the five passes map each single character to its entity (or itself) |
| Html.PassesArePerChar | chatgpt_awesome_actions_datamodules/actions.py:412-416 | `html.escape` (five passes, '&' first) equals character-by-character escaping: no entity is escaped twice |
| Html.EscapeHasNoMarkup | chatgpt_awesome_actions_datamodules/actions.py:412-416 | escaped text contains none of `<`, `>`, `"`, `'` |
| Html.UnescapeStep | chatgpt_awesome_actions_datamodules/actions.py:412-416 | unescaping an escaped character followed by any text gives the character and the unescaped text |
| Html.EscapeRoundTrip | chatgpt_awesome_actions_datamodules/actions.py:412-416 | unescaping the escaped text gives the original text |
| Html.EscapeInjective | chatgpt_awesome_actions_datamodules/actions.py:412-416 | two texts that escape alike are equal |
| Actions.Echo | chatgpt_awesome_actions_datamodules/actions.py:232-253 | the body is the message; the content type is text/plain |
| Actions.ExecPlain | chatgpt_awesome_actions_datamodules/actions.py:256-278 | text/plain if and only if exec finished and bound `__retval__`, with body `str(__retval__)`; otherwise text/error with the traceback of the raised exception, or of the missing key |
| Actions.Parse | chatgpt_awesome_actions_datamodules/actions.py:398-401 | `ast.literal_eval(body)`, or the body as a string when that raises |
| Actions.BuildMonitorHtml | chatgpt_awesome_actions_datamodules/actions.py:408-416 | the loop builds the monitor page: `<pre>` rendering, then one section per pair in list order |
| Actions.MonitorHtml | chatgpt_awesome_actions_datamodules/actions.py:408-416 | the monitor page: `<pre>rendering</pre>` followed by one section per pair in list order; BuildMonitorHtml is proved equal to it |
| Actions.RunUid | chatgpt_awesome_actions_datamodules/actions.py:388 | the monitor id `'exec_python_code :' + str(uuid.uuid4())`, with the uuid text as the parameter `runId` |
| Actions.Started | chatgpt_awesome_actions_datamodules/actions.py:389-390 | the two monitor calls before the snippet runs: `(uid, 'code', code)` then `(uid, 'retval', 'Running...')`; every run begins with them (ErrorShortCircuits, PublishedRunReport, PublicationErrorRaised) |
| Actions.ResponseValue | chatgpt_awesome_actions_datamodules/actions.py:395 | the response as the Python dict `{'body': ..., 'content-type': ...}`, in that key order, whose `str` is the third notice of an error run (ErrorShortCircuits) |
| Actions.PairHtml | chatgpt_awesome_actions_datamodules/actions.py:411-416 | one section: a link line, then an image for ".png" URLs or the escaped preview box; its safety is LinkTextSafe, PreviewBoxSafe and PngIgnoresPreview |
| Actions.AppendSection | chatgpt_awesome_actions_datamodules/actions.py:411-416 | one turn: the link line with raw href and escaped text, then `<img src=url>` for ".png" URLs or the escaped preview in a bordered box |
| Actions.MonitorHtmlStarts | chatgpt_awesome_actions_datamodules/actions.py:408 | the page starts with `<pre>rendering</pre>` and is only that when nothing was published |
| Actions.LinkTextSafe | chatgpt_awesome_actions_datamodules/actions.py:412 | the link text is markup-free and decodes to the URL |
| Actions.PngIgnoresPreview | chatgpt_awesome_actions_datamodules/actions.py:413-414 | an image section does not depend on the preview |
| Actions.PreviewBoxSafe | chatgpt_awesome_actions_datamodules/actions.py:415-416 | a non-image section holds, inside the box, a markup-free text that decodes to the preview |
| Actions.PreviewShown | chatgpt_awesome_actions_datamodules/actions.py:415-416 | two non-image sections for the same URL are equal only when their previews are equal |
| Actions.ExecPythonCode | chatgpt_awesome_actions_datamodules/actions.py:382-425 | the in-place action yields the result, the monitor calls and the publisher state of `ExecPythonCodeRun` |
| Actions.ExecPythonCodeRun | chatgpt_awesome_actions_datamodules/actions.py:382-425 | the action as a function of the runtime, the token stream and the state: result, monitor notices and final state; its outcomes are the lemmas below |
| Actions.ErrorShortCircuits | chatgpt_awesome_actions_datamodules/actions.py:392-396 | when the snippet did not yield `__retval__`, the error response is returned unchanged and reported to the monitor as `str(retval)` right after the two start notices, and nothing is published |
| Actions.AnswerContentType | chatgpt_awesome_actions_datamodules/actions.py:394-405 | an answer is text/error or text/uri-list; it is text/uri-list if and only if the snippet bound `__retval__` |
| Actions.RunOfRetval | chatgpt_awesome_actions_datamodules/actions.py:398-405 | with `__retval__`, the answer and final state are those of publishing `literal_eval(body)`, or the body as a string when that fails |
| Actions.PublishedRun | chatgpt_awesome_actions_datamodules/actions.py:398-405 | a successful run answers `str` of the rewritten value as text/uri-list; the rewritten value keeps the parsed value's shape; the pairs' URLs are the expected ones for its scratch paths in visit order |
| Actions.PublishedRunReport | chatgpt_awesome_actions_datamodules/actions.py:388-417 | the monitor receives the code, "Running...", then the page built from the answer and exactly this run's pairs |
| Actions.NothingToPublish | chatgpt_awesome_actions_datamodules/actions.py:398-417 | a parsed value without scratch paths is answered with its own rendering; nothing moves; the page is only `<pre>rendering</pre>` |
| Actions.PublicationErrorRaised | chatgpt_awesome_actions_datamodules/actions.py:423-425 | a publication error is re-raised after the two start notices, with no page reported |

## Left out

- Running the code. `exec` with the injected globals is an oracle field of `Runtime`. The module and file injection that builds those globals (actions.py:79-107) is not modelled, and neither is what a snippet does. The filesystem `st.fs` given to `ExecPythonCodeRun` (and the publisher's `fs` before `ExecPythonCode`) stands for the filesystem after the snippet has run, including the files it wrote under /tmp/.
- `str`, `repr` and `ast.literal_eval` are also `Runtime` fields. `str(...)` raising an exception is not modelled.
- The traceback text is a parameter. It is the exception text when exec raises, and `missingRetvalTrace` when `__retval__` is unbound.
- `_update_monitor` delivery (the thread, the HTTP request, the ignored errors, the no-op without a monitor URL): only the sequence of calls is recorded, as `Notice` values.
- The monitor webapp and its table are not part of this model. The webapp broadcasts each update as it arrives; it keeps no buffer and merges nothing by timestamp, so there is nothing to model.
- `_find_free_port`, the configuration file and logging: they affect no result.
- `uuid.uuid4()`: it is a caller-supplied token stream, and the monitor id is a parameter `runId`.
  - Actions.ExecPythonCode: the monitor uuid and the per-path tokens come from separate sources here, whereas the source draws them from one generator.
  - Translate.ConvertTmpToSavePath: its slash-freedom clauses assume a 32-hex-digit token.
- Set iteration order is a parameter: a `Set` lists its elements in the order Python visits them.
  - PublishProps.ValueShape: for sets it states only that every rebuilt element is the image of an original one. It makes no claim about the rebuilt set's cardinality, since elements may collapse.
- The filesystem is a flat map from canonical paths. The following are not modelled:
  - paths inside a published directory;
  - symbolic links;
  - permissions;
  - how the operating system resolves `..` through a symbolic link.
- `_convert_tmp_to_save_path` looks up the path it has normalised itself, by its key. `_convert_public_to_save_path` looks the joined path up as written, through `FileStore.ExistsAsWritten`. The copy, preview and remove step looks up the string as written, through `FileStore.RawResolves`. That walk knows directories only as nodes held as directories or as names lying above a held path. An empty directory that is not held as a node does not exist for it. A directory node is opaque, so a path inside a held directory node does not walk.
- Translate.ConvertTmpToSavePath: an unheld directory implied only by held paths beneath it does not exist for the translators, because `Exists` asks for a held node. Publishing such a directory raises SourceNotFound here, where `os.path.exists` is true in the source and the directory would be copied with `shutil.copytree` and removed with `shutil.rmtree`.
- FileStore.Exists and FileStore.ExistsAsWritten: the same gap. A directory that is not held as a node but is implied only by held paths beneath it does not exist for them, where `os.path.exists` is true. ExistsAsWritten also does not find a path inside a held directory node, whose files have no key of their own.
- PublishProps.PublishedCopyRoundTrip: it requires the destination, after the working directory, to be written in normal form with only directories above it, as it is for a SAVE_FILE_DIR built by `os.path.abspath` and ending in '/'. The copy itself is made at the destination's normpath. `shutil.copy` failing because SAVE_FILE_DIR as written does not walk is not modelled.
- File operations failing mid-way is not modelled.
  - PublishProps.MoveNodeEffect: `shutil.copytree` raising because the destination already exists is not modelled. A file copied onto an existing regular file replaces it, as `shutil.copy` does. A destination that is an existing directory, into which `shutil.copy` would copy the file under its own base name, is not modelled: the model replaces that directory with the file, and `fs'[dst] == fs[src]` is stated for it too.
- Publish.MoveNode, Publish.Publisher.MoveIn, Publish.Publisher.MoveAsWritten and PublishProps.PublishStrSucceeds: the same gap. A file published onto a destination that already exists as a directory replaces that directory here, where `shutil.copy` writes `dst/<basename(src)>` and leaves the directory in place. The files inside a directory node have no path of their own in this model, so the copy into it cannot be stated.
- The `href` and `src` attributes receive the raw URL without escaping, as in the source. The model states no safety property for them.
- PublishEffects.ValueRewrites and PublishEffects.PublishedStrings hold for values without sets only. A rebuilt set may merge elements and is visited in a parameter order.
- PublishEffects.ValueGone holds only under `Separate`: visited paths spelled as their own keys with only directories above them, no path twice, no destination equal to or above a visited path. Outside these conditions the frame of PublishEffects.WalkFrame still holds.
- PublishProps.PublishedWalk and Actions.PublishedRun give the URLs of the pairs but not their previews. The previews of one string step are given by PublishProps.PublishStrSucceeds together with PublishProps.MoveNodeEffect.
- The commented-out and superseded code (actions.py:113-142 and 428-498), the webapp and `setup.py` are not part of this model.
