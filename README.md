# yii2-classes extensions, modelled in Dafny

This project models the project's own logic in three Yii2 framework extensions. The
framework calls (ActiveRecord persistence, event dispatch, schema introspection,
the SQL it sends, the view renderer) are treated as abstract operations on
abstract state.

- **SoftDelete behaviour** (`soft_delete.dfy`, module `SoftDeleteBehavior`). An
  owner record is live, soft-deleted (its delete attribute holds a timestamp) or
  physically gone. The behaviour is attached or detached, and `safeMode` decides
  what `delete()` does. Yii's `detach()` sets the behaviour's `owner` to null,
  so after `forceDelete()` the calls that go through the behaviour (`remove()`,
  `restore()`, a second `forceDelete()`) throw; the model returns the error
  `OwnerIsNull` for them and a sequence of calls (`Run`) stops there. `State` and the functions over it (`Removed`,
  `Restored`, `DoDeleteTimestampEffect`, `DeleteEffect`, `ForceDeleteEffect`)
  specify each operation. The classes `Record`, `ModelEvent` and `SoftDelete` are
  the imperative model, and each `SoftDelete` method is proved equal to its
  function; `Record.Save` and `Record.DeleteRow` carry their own contracts. The
  owner keeps its in-memory `attributes` apart from its `stored` row, so that
  "`save(false, [attr])` writes only that attribute" can be stated. The timestamp
  that `getValue(null)` evaluates is a parameter.
- **List views** (`list_sections.dfy`, `layout_list_view.dfy`,
  `ext_list_view.dfy`). `run()` makes one of three choices: hand over to
  `ListView::run()`, echo the layout after substituting the four tokens
  `{summary}`, `{items}`, `{pager}` and `{sorter}` in that order, or echo
  `renderEmpty()`.
  - Both widgets share one model of the substitution loop
    (`ListSections.ReplaceSections`), which is identical in the two files. It is
    written over a model of PHP's `strpos` and `str_replace`.
  - The framework's renderers are function parameters.
  - Every call a widget's own `run()` makes to the framework or to a closure
    is returned in order as a `Call` list; calls made inside `ListView::run()`
    are not in it. This list shows which sections are rendered and
    which parameters a view receives.
  - PHP's `empty()` treats `null`, `""` and `"0"` as empty. A view named `"0"`
    therefore hands over to the parent, exactly as the code does.
  - `ExtListView` differs from `LayoutListView` only in accepting closures.
    `ExtListView.AgreesWithLayoutListView` proves that, on configurations
    without closures, the two `renderEmpty()`s and the two layout contents
    are equal. The two `Run` contracts are stated case by case in terms of
    these, so their agreement follows, but it is not stated as a lemma.
- **DbToDbFixtureManager** (`db_to_db_fixture_manager.dfy`). The test database
  and the fixture database are maps from table name to rows. The statements
  sent to the test database are recorded in order as `Command` values. `init()`
  validation, the `loadAll()` split by `skipTables`, the `load()` conversion of
  class names to table names, the load loop with its integrity toggling,
  `loadFixture()`'s three outcomes (exception, `false`, copy) and `getRows()`
  are all modelled.
  - `loadAll()` hands `load()` a PHP list, so `_rows` is keyed by list position
    (0, 1, 2, …) rather than by table name. `LoadAllKeysArePositions` states
    this. After `loadAll()`, `getRows("some_table")` returns `false`.
  - PHP stores a string key that is the decimal form of an integer (`"0"`,
    `"42"`, `"-7"`, but not `"07"` or `"-0"`) as that integer, both when `_rows`
    is written and when `getRows()` reads it (`NormalKey`). So after
    `loadAll()`, `getRows("0")` returns the first table's rows, as
    `getRows(0)` does.
  - An exception thrown by `loadFixture()` in the middle of `load()` leaves
    integrity checks off, because there is no `finally`. The model keeps this
    behaviour.
  - `init()` checks `db` before `fixtureDb`. When both are wrong, the `db`
    error is the one raised.

## Model

| member | source | states |
|---|---|---|
| `SoftDeleteBehavior.Events` | behaviors/SoftDelete.php:42-44 | the before-delete event is the only event handled, by doDeleteTimestamp |
| `SoftDeleteBehavior.SoftDelete.constructor` | behaviors/SoftDelete.php:31-37 | defaults: attribute `"delete_time"`, safeMode true, attached to its owner |
| `SoftDeleteBehavior.Removed` | behaviors/SoftDelete.php:66-75 | on an attached behaviour, remove() sets the attribute to the timestamp; every other attribute, the row's existence and the configuration are unchanged, and only that column of the stored row is written. On a detached one (owner null) it throws |
| `SoftDeleteBehavior.Restored` | behaviors/SoftDelete.php:80-88 | on an attached behaviour, restore() sets the attribute to null, whether or not the row exists, and writes only that column, and an existing record is live afterwards; on a detached one it throws |
| `SoftDeleteBehavior.DoDeleteTimestampEffect` | behaviors/SoftDelete.php:51-61 | with safeMode off, nothing changes and isValid is kept; with it on, the record is removed and isValid becomes false; it throws exactly when safeMode is on and remove() meets a null owner |
| `SoftDeleteBehavior.DeleteEffect` | behaviors/SoftDelete.php:33-61 | delete() is cancelled if and only if the behaviour is attached and safeMode is on; the row survives if and only if it existed and delete() was cancelled; a delete() that goes through changes nothing but the row's existence |
| `SoftDeleteBehavior.ForceDeleteEffect` | behaviors/SoftDelete.php:90-99 | on an attached behaviour, forceDelete() leaves it detached and the row gone, with attributes, stored row, attribute name and safeMode untouched, and returns no value; on a detached one the owner it takes is null and it throws |
| `SoftDeleteBehavior.SafeDeleteIsSoftDelete` | behaviors/SoftDelete.php:54-60 | with safeMode on and the behaviour attached, delete() is exactly remove() plus cancellation: the row stays and the attribute holds the timestamp |
| `SoftDeleteBehavior.UnsafeDeleteIsPhysical` | behaviors/SoftDelete.php:53-56 | with safeMode off, delete() changes nothing but the row's existence |
| `SoftDeleteBehavior.RestoreIdempotent` | behaviors/SoftDelete.php:80-88 | a restore() that does not throw, repeated, gives the same result |
| `SoftDeleteBehavior.RestoreUndoesRemove` | behaviors/SoftDelete.php:66-88 | when remove() does not throw, remove() then restore() equals restore() alone, and a live record is live again |
| `SoftDeleteBehavior.RemoveRestoreRoundTrip` | behaviors/SoftDelete.php:66-88 | on a live record whose stored attribute is null, a remove() that does not throw followed by restore() gives the record back exactly |
| `SoftDeleteBehavior.ForceDeleteIgnoresSafeMode` | behaviors/SoftDelete.php:91-98 | whether forceDelete() throws, and its effect when it does not, do not depend on safeMode |
| `SoftDeleteBehavior.OnlyForceDeleteDeletes` | behaviors/SoftDelete.php:33-36 | under safe mode, any sequence of delete/remove/restore calls without forceDelete runs without throwing and leaves the row in place and the behaviour attached |
| `SoftDeleteBehavior.ForceDeleteIsFinal` | behaviors/SoftDelete.php:93-98 | forceDelete() succeeds on an attached behaviour; after it, any sequence of calls leaves the row gone and the behaviour detached, and it runs without throwing exactly when every call is delete() |
| `SoftDeleteBehavior.DetachedStaysGone` | behaviors/SoftDelete.php:93-98 | from a detached behaviour whose row is gone, delete() finds nothing and every other call throws, so the row stays gone |
| `SoftDeleteBehavior.Apply` | behaviors/SoftDelete.php:66-99 | a call throws if and only if it goes through a detached behaviour: remove(), restore() and forceDelete() do, the owner's delete() does not |
| `SoftDeleteBehavior.Record.Save` | behaviors/SoftDelete.php:74 | save(false, [attr]) writes that one in-memory value to an existing row and nothing else |
| `SoftDeleteBehavior.SoftDelete.DoDeleteTimestamp` | behaviors/SoftDelete.php:51-61 | the handler's outcome and its effect on owner and event equal DoDeleteTimestampEffect; when it throws, owner and isValid are unchanged |
| `SoftDeleteBehavior.SoftDelete.Remove` | behaviors/SoftDelete.php:66-75 | the outcome and the new state equal Removed of the old state; once detached it throws with nothing changed |
| `SoftDeleteBehavior.SoftDelete.Restore` | behaviors/SoftDelete.php:80-88 | the outcome and the new state equal Restored of the old state; once detached it throws with nothing changed |
| `SoftDeleteBehavior.SoftDelete.Delete` | behaviors/SoftDelete.php:33-44 | the owner's delete(), with the event dispatched to this behaviour while it is attached, equals DeleteEffect |
| `SoftDeleteBehavior.SoftDelete.ForceDelete` | behaviors/SoftDelete.php:93-99 | detach, then delete, dropping delete()'s result: outcome and new state equal ForceDeleteEffect; on a detached behaviour it throws with nothing changed |
| `ListSections.ReplaceSections` | widgets/ExtListView.php:55-60 | the loop's content and renderSection calls are those of the fold over the tokens in order, each step on the previous step's result |
| `ListSections.OccursAt` | widgets/ExtListView.php:57 | `strpos($content, $section) !== false` (the predicate `Occurs`, also at widgets/LayoutListView.php:51) holds exactly when the token sits in the content at some position |
| `ListSections.StrReplace` | widgets/ExtListView.php:58 | `str_replace` (also at widgets/LayoutListView.php:52): no contract of its own; it is the reference definition, scanning left to right without overlap, that StrReplaceAbsent, StrReplaceIsJoinOfSplit and SplitPiecesAreFree describe |
| `ListSections.StrReplaceAbsent` | widgets/ExtListView.php:57-58 | replacing a token that does not occur leaves the content unchanged |
| `ListSections.StrReplaceIsJoinOfSplit` | widgets/ExtListView.php:58 | str_replace equals implode of explode: where replacements happen depends only on the subject, so inserted text is never rescanned for the same token |
| `ListSections.SplitPiecesAreFree` | widgets/ExtListView.php:58 | every occurrence is replaced: no piece between replacements holds the token |
| `ListSections.SplitJoinRoundTrip` | widgets/ExtListView.php:58 | joining the pieces with the token gives the subject back |
| `ListSections.NoTokensPassThrough` | widgets/ExtListView.php:56-60 | a layout with none of the tokens comes out verbatim and no section is rendered |
| `ListSections.SectionRenderedIffPresent` | widgets/ExtListView.php:57-58 | a token's section is rendered if and only if the token occurs in the content the loop has reached |
| `ListSections.CallsAreOf` | widgets/ExtListView.php:55-60 | the loop makes only renderSection calls, each for one of the tokens |
| `ListSections.SubstitutedSplitAt` | widgets/ExtListView.php:55-60 | for every layout, sections and step i, the output is the content after step i with only the steps of the later tokens applied, so text inserted before step i is never searched for an earlier token |
| `ListSections.AbsentTokensKeepContent` | widgets/ExtListView.php:57-58 | steps whose tokens do not occur leave the content unchanged |
| `ListSections.NoLaterTokenIsFinal` | widgets/ExtListView.php:55-60 | once the content holds none of the remaining tokens it is the output, so an earlier token in a section's text is kept as text |
| `ListSections.SectionTextNotRescannedForEarlierToken` | widgets/ExtListView.php:55-60 | an instance: if the items section renders as `{summary}`, the output is `{summary}` |
| `ListSections.SectionTextRescannedForLaterToken` | widgets/ExtListView.php:55-60 | an instance of the other direction: if the summary section renders as `{items}`, the output is the items section |
| `LayoutListView.RenderEmpty` | widgets/LayoutListView.php:68-77 | the parent's empty text when emptyView is empty, otherwise emptyView rendered with emptyViewParams |
| `LayoutListView.IsEmpty` | widgets/LayoutListView.php:39 | PHP's empty() on a view property (also at :71): an unset view is empty, and a view name is empty exactly when it is `""` or `"0"` |
| `LayoutListView.Run` | widgets/LayoutListView.php:36-63 | empty layoutView: only the parent runs; items or showOnEmpty: the layout view is rendered with its params and substituted; otherwise exactly renderEmpty() |
| `LayoutListView.EmptyListSkipsLayout` | widgets/LayoutListView.php:45-59 | on the empty path, no section is rendered and the layout view is rendered only when it is also the empty view |
| `ExtListView.RenderEmpty` | widgets/ExtListView.php:74-85 | the parent's empty text when emptyView is empty; a closure's result when emptyView is a closure; otherwise the view rendered with emptyViewParams |
| `ExtListView.IsEmpty` | widgets/ExtListView.php:41 | PHP's empty() on a view property (also at :77): unset is empty, a closure never is, and a view name is empty exactly when it is `""` or `"0"` |
| `ExtListView.Produce` | widgets/ExtListView.php:50-52 | a closure is called with no arguments and its result used as is; a view is rendered with the given params (also at :82-84) |
| `ExtListView.Run` | widgets/ExtListView.php:38-69 | empty layoutView: only the parent runs; items or showOnEmpty: closure or view content, substituted; otherwise exactly renderEmpty() |
| `ExtListView.ClosureIgnoresParams` | widgets/ExtListView.php:50-52 | a closure's output does not depend on the params; a view is rendered with exactly them |
| `ExtListView.AgreesWithLayoutListView` | widgets/ExtListView.php:74-85 | without closures, ExtListView's renderEmpty and layout content equal LayoutListView's |
| `DbToDbFixtureManager.ResolveDb` | test/DbToDbFixtureManager.php:64-66 | a component ID is replaced by the component (null if unknown); anything else is kept |
| `DbToDbFixtureManager.Truthy` | test/DbToDbFixtureManager.php:72 | `!$this->fixtureDb`: null, `""` and `"0"` are false and every other string is true |
| `DbToDbFixtureManager.FixtureManager.Init` | test/DbToDbFixtureManager.php:57-75 | init succeeds if and only if db resolves to a connection and fixtureDb is truthy; a bad db is reported before a missing fixtureDb |
| `DbToDbFixtureManager.FixtureManager.constructor` | test/DbToDbFixtureManager.php:37-52 | skipTables defaults to `["tbl_migration"]`; `_rows` is empty |
| `DbToDbFixtureManager.KeptSkippedPartition` | test/DbToDbFixtureManager.php:89-99 | the two lists together are a permutation of the tables; a table is loaded if and only if it is not skipped |
| `DbToDbFixtureManager.SplitTables` | test/DbToDbFixtureManager.php:89-99 | the loop yields the order-preserving filters of the schema's tables, partitioning them |
| `DbToDbFixtureManager.ResolveFixture` | test/DbToDbFixtureManager.php:115-124 | a name with a backslash becomes its ActiveRecord's table name, or an error if it is not one; other names pass through |
| `DbToDbFixtureManager.FirstFailure` | test/DbToDbFixtureManager.php:115-124 | the first fixture that does not resolve; all before it do |
| `DbToDbFixtureManager.ConvertFixtures` | test/DbToDbFixtureManager.php:115-124 | succeeds if and only if every fixture resolves, with keys kept and names converted; otherwise reports the first failure |
| `DbToDbFixtureManager.ConvertedKeepsKeys` | test/DbToDbFixtureManager.php:115-124 | conversion keeps the keys distinct |
| `DbToDbFixtureManager.LoadablePrefix` | test/DbToDbFixtureManager.php:144-163 | the number of leading fixtures whose table the test db has: load() gets exactly this far |
| `DbToDbFixtureManager.CopyAllAt` | test/DbToDbFixtureManager.php:144-146 | after loading, a table holds its fixture rows if it was named and the fixture db has it, and is untouched otherwise; no table appears or disappears |
| `DbToDbFixtureManager.ResetAllAt` | test/DbToDbFixtureManager.php:178-179 | every copied table's sequence is 1 and every other sequence is untouched |
| `DbToDbFixtureManager.RowsMapAt` | test/DbToDbFixtureManager.php:127-146 | `_rows` has exactly the keys PHP makes of the loaded names, each mapped to its loadFixture result |
| `DbToDbFixtureManager.LoadAllKeysArePositions` | test/DbToDbFixtureManager.php:97-104 | after loadAll() has loaded n tables, the `_rows` keys are exactly the positions 0 .. n-1, and position i holds table i's result |
| `DbToDbFixtureManager.StringKeyIsInteger` | test/DbToDbFixtureManager.php:145 | a string key is stored as an integer key exactly when it is the decimal form of an integer in PHP's range, and then as that integer |
| `DbToDbFixtureManager.NormalKey` | test/DbToDbFixtureManager.php:145 | the key PHP uses for `_rows[$name]` (and for the isset at :199): an integer key is kept, and a key that stays a string is the string given; StringKeyIsInteger says which strings become integers |
| `DbToDbFixtureManager.FixtureManager.LoadFixture` | test/DbToDbFixtureManager.php:157-192 | a table missing from the test db throws with nothing changed; one missing from the fixture db gives false after the probe only; otherwise truncate, reset the sequence to 1 and copy, returning the fixture rows |
| `DbToDbFixtureManager.FixtureManager.Load` | test/DbToDbFixtureManager.php:111-152 | a conversion error changes nothing; otherwise `_models` is reset, `_rows` holds exactly the loaded prefix, integrity is switched off before any statement and back on only on completion |
| `DbToDbFixtureManager.FixtureManager.LoadTables` | test/DbToDbFixtureManager.php:126-152 | the second half of load(), as in the row above |
| `DbToDbFixtureManager.FixtureManager.LoadEntry` | test/DbToDbFixtureManager.php:144-146 | one turn of the loop extends every fold by one fixture, or throws with nothing changed |
| `DbToDbFixtureManager.FixtureManager.LoadAll` | test/DbToDbFixtureManager.php:80-106 | loadAll() is load() of the non-skipped tables as a positional list |
| `DbToDbFixtureManager.FixtureManager.GetRows` | test/DbToDbFixtureManager.php:198-200 | the rows stored under the key PHP makes of the name (a decimal string finds the integer key), false for an unknown one |

## Left out

- Debug output (`Debug::debug`) and the `echo` itself. `run()` returns the echoed text as `Echo(content)`.
- Running `initScript` through `require`. This is file I/O and arbitrary code.
- `parent::init()` and the `basePath` alias resolution.
- The SQL semantics. The existence probe is modelled as "the fixture database has the table", but the source catches any database exception there, so permission errors also skip. The TRUNCATE, the sequence reset, the copy and the select are modelled as always succeeding. Yii's `resetSequence()` throws for a table without a sequence, after the TRUNCATE has already run, and the model does not capture that. Also, the effect of the INSERT on the auto-increment counter after its reset to 1 is not modelled.
- Schema introspection. The test database's table list is an input to `LoadAll` and is not tied to the keys of `testDb`, and `getTableSchema()` is modelled as key membership. What `new $fixture` yields is an input map. An unknown class (a fatal error in PHP) is modelled as the error `UnknownClass`.
- Array keys are integers or strings, and integers have the range of a 64-bit build. PHP also converts float, boolean and null keys, which the model does not have.
- `in_array` uses loose comparison, which equates numeric strings such as "1" and "01". The model compares table names exactly.
- `SoftDeleteBehavior.SoftDelete.Delete`: framework persistence is reduced to the documented contract. A handler's `isValid = false` cancels, and `save(false, [attr])` writes only that column of an existing row. Writing to a row that is gone writes nothing, whereas Yii may re-insert a record it considers new. Dirty-attribute tracking and save's return value are not modelled, and other behaviours' handlers are not modelled.
- `SoftDeleteBehavior.State.Valid`: the configured attribute must be a column of the owner. PHP throws an unknown-property exception otherwise.
- `LayoutListView.Run`: when `layoutView` is empty, `ListView::run()` is opaque (`ParentOutput`, calls `[ParentRun]`). On an empty list with `showOnEmpty` off it calls the widget's own `renderEmpty()`, so the configured empty view is still rendered on that branch, and `[ParentRun]` does not show it.
- `ExtListView.Run`: likewise, when `layoutView` is empty, `ListView::run()` still reaches the widget's own `renderEmpty()` on an empty list with `showOnEmpty` off, so the empty closure is called or the empty view rendered there; `[ParentRun]` does not show it.
- Closures are modelled as the text they return when called with no arguments, and their side effects are not modelled. Non-string, non-closure values for `layoutView`/`emptyView`, such as arrays and `false`, are not modelled.
- `renderSection` is an arbitrary function from token to text. Its `false` for unknown section names never arises, because only the four tokens are passed.
- `_models` is only ever reset by the source, and the model does no more with it.
- Concurrency and transactions: everything is single-threaded, and there is no transaction handling in the source.
