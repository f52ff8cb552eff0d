# Authenticator, modelled in Dafny

Authenticator is an iOS two-factor authentication app. It keeps a list of
one-time-password tokens in the keychain and shows them in a table. This
project models the app's value-level logic:

- the row diff that turns one list of rows into another;
- the plan of table-view calls that animates such a diff;
- the token list, as five components from successive versions of the app:
  - the keychain-item manager of `Classes`;
  - the throwing manager, the error-swallowing store and the list component of `Source`;
  - the in-memory store the tests use.
- the saved order of the tokens, which the four keychain-backed components keep and the in-memory store does not;
- the component state machines: screen lock, menu, QR scanner, entry and edit forms, root component, app model;
- the view models of tables, segmented controls, form rows and token rows, with their row identities and equalities.

Every component is a datatype, and every operation is a pure function from a
state and an input to a new state and an optional effect. The outside world
is passed in as a parameter:

- the keychain's reply to an add, update or delete;
- whether the device can scan;
- what the OneTimePassword library makes of a URL, a base32 secret or a generator;
- the path of a bundled file.

The project has one module per source file. Modules whose names start with
`Legacy` model the older `Authenticator/Classes` versions of a component.
`Seqs`, `Wrappers` and `Tokens` hold the shared sequence operations, `Option`
and `Result`, and the token values.

## Model

| member | source | states |
|---|---|---|
| TableDiff.Diff | Authenticator/Source/TableDiff.swift:35-70 | The script has at least one change per row of the longer side and at most one per row of both sides. |
| TableDiff.DiffAccounts | Authenticator/Source/TableDiff.swift:35-70 | Inserts plus updates equal the target rows, and deletes plus updates equal the source rows. So the length is the sum of both sides minus the updates. Target indices run from the last target row down to 0. Deleted source indices strictly decrease and stay below the source length. No `Move` is produced. |
| TableDiff.DiffOfEmpty | Authenticator/Source/TableDiff.swift:67-68 | Two empty row lists give the empty script. |
| TableDiff.DiffFromEmpty | Authenticator/Source/TableDiff.swift:62-65 | From no rows, the script inserts every target row, the last index first. |
| TableDiff.DiffToEmpty | Authenticator/Source/TableDiff.swift:57-60 | To no rows, the script deletes every source row, the last index first. |
| TableDiff.DiffIsEditScript | Authenticator/Source/TableDiff.swift:36-55 | Read from the end of both sequences, the script turns the source rows into the target rows. Updates pair only rows the comparator accepts. |
| TableDiff.DiffDropSource | Authenticator/Source/TableDiff.swift:45-60 | Dropping the last source row shortens the diff by at most one change and never lengthens it. |
| TableDiff.DiffDropTarget | Authenticator/Source/TableDiff.swift:45-65 | Dropping the last target row shortens the diff by at most one change and never lengthens it. |
| TableDiff.DiffIsShortest | Authenticator/Source/TableDiff.swift:39-55 | No valid edit script is shorter than the diff: the choice of the shorter branch at each step is optimal overall. |
| TableUpdates.GroupedRowOps | Authenticator/Source/UITableView+Updates.swift:64-73 | Inside the group, only row insertions and row deletions are issued. |
| TableUpdates.GroupedRowOpsAreTheAnimatedChanges | Authenticator/Source/UITableView+Updates.swift:64-73 | The grouped calls are exactly the inserts and deletes of the change list, mapped to their table calls, in input order. |
| TableUpdates.ApplyRowUpdates | Authenticator/Source/UITableView+Updates.swift:82-90 | Only `updateRow` calls are issued. |
| TableUpdates.RowUpdatesAreTheUpdates | Authenticator/Source/UITableView+Updates.swift:82-90 | There is one `updateRow` call per update, at its new index path, in input order. |
| TableUpdates.LastInsertedFrom | Authenticator/Source/UITableView+Updates.swift:97-107 | The fold is empty exactly when it starts empty and nothing is inserted. Otherwise it yields the start or an inserted path, and no inserted path comes after it. |
| TableUpdates.ScrollToLastInsertedRow | Authenticator/Source/UITableView+Updates.swift:96-113 | The table scrolls once exactly when something is inserted, to an inserted path that no inserted path comes after. |
| TableUpdates.ApplyChanges | Authenticator/Source/UITableView+Updates.swift:32-35 | An empty change list produces no table calls at all. |
| TableUpdates.ApplyChangesGroupsIffAnimated | Authenticator/Source/UITableView+Updates.swift:52-63 | `beginUpdates` and `endUpdates` are called exactly when some change is an insert or a delete, and the begin call comes first. |
| TableUpdates.OrderChangesRowOps | Authenticator/Source/UITableView+Updates.swift:49-76 | The row calls of the updates group are the animated changes, in order. |
| TableUpdates.ApplyChangesRowOpsInOrder | Authenticator/Source/UITableView+Updates.swift:37-76 | Across the whole batch, the insert and delete calls are the inserts and deletes of the changes, in input order. Updates never become row operations. |
| TableUpdates.OrderChangesAreGroupEvents | Authenticator/Source/UITableView+Updates.swift:62-75 | The updates group consists only of begin, end, insert and delete calls. |
| TableUpdates.ApplyChangesUpdatesInOrder | Authenticator/Source/UITableView+Updates.swift:38-40 | Across the whole batch, `updateRow` runs once per update, at its new index path, in input order. |
| TableUpdates.NoGroupEventAfterUpdates | Authenticator/Source/UITableView+Updates.swift:37-42 | When group calls come first, then updates, then scrolls, no group call follows an `updateRow` call. |
| TableUpdates.ApplyChangesUpdatesAfterGroup | Authenticator/Source/UITableView+Updates.swift:37-40 | Every `updateRow` call comes after the whole animated group. |
| TableUpdates.ApplyChangesScrollsToLastInserted | Authenticator/Source/UITableView+Updates.swift:41-42 | The batch ends with a scroll exactly when something was inserted, and nothing else in the batch scrolls. The scroll target is an inserted path that no other inserted path comes after. |
| TableUpdates.ApplyChangesUpdateOnly | Authenticator/Source/UITableView+Updates.swift:32-90 | A batch of updates alone issues only the `updateRow` calls, with no group and no scroll. |
| TableUpdates.OrderChangesInSectionAgree | Authenticator/Source/UITableViewController+Updates.swift:35-64 | The section-scoped order changes equal the index-path order changes of the same changes placed in that section. The group appears exactly when an insert or delete is present, and its row calls follow input order. |
| TableUpdates.SectionRowOpsAgree | Authenticator/Source/UITableViewController+Updates.swift:50-61 | Inside the section's group, the row calls are those of the index-path planner, so updates are skipped. |
| TableUpdates.RowUpdatesInSectionAgree | Authenticator/Source/UITableViewController+Updates.swift:72-83 | Each update is applied at its new row in the section, exactly as the index-path planner applies it. |
| TableUpdates.FirstInsertedFrom | Authenticator/Source/UITableViewController+Updates.swift:91-101 | The fold is empty exactly when it starts empty and nothing is inserted. Otherwise it yields the start or an inserted row, no larger than any of them. |
| TableUpdates.ScrollToFirstInsertedRow | Authenticator/Source/UITableViewController+Updates.swift:90-111 | The controller scrolls once exactly when something is inserted, to the smallest inserted row of the given section. |
| LegacyTokenManager.IndexOfRef | Authenticator/Classes/TokenManager.swift:67-69 | The result is the first index whose item carries the reference, or nothing when no item carries it. |
| LegacyTokenManager.MatchRefs | Authenticator/Classes/TokenManager.swift:63-76 | Every item ends up either taken or left over. The leftovers keep their original relative order. The taken items follow the references' order. Each reference value is taken as often as both the references and the items allow, so references without an item are skipped. |
| LegacyTokenManager.MatchRefsOrder | Authenticator/Classes/TokenManager.swift:66-75 | Which references find an item depends only on the references the items carry: scanning the saved order, a reference is kept while an unclaimed item carries it, so an earlier occurrence of a repeated reference is served first. Among the items sharing a reference, the taken ones are the first in list order, taken in that order, and the rest are left over in order. |
| LegacyTokenManager.SortedByPersistentRefs | Authenticator/Classes/TokenManager.swift:60-79 | The sorted list is a permutation of the keychain's items. |
| LegacyTokenManager.SortByOwnRefs | Authenticator/Classes/TokenManager.swift:60-79 | Sorting any arrangement of items with distinct references by a list's own references gives back that list. |
| LegacyTokenManager.Fetch | Authenticator/Classes/TokenManager.swift:50-58 | The fetched list is a permutation of the keychain's items. The order is saved again exactly when the keychain holds more items than the saved order names. |
| LegacyTokenManager.FetchAfterSave | Authenticator/Classes/TokenManager.swift:50-79 | After the order has been saved, reading the keychain back in any order restores the same list. |
| LegacyTokenManager.AddToken | Authenticator/Classes/TokenManager.swift:98-105 | The result is true exactly when the keychain adds the item. On success the item is appended and the order saved. On failure nothing changes. |
| LegacyTokenManager.SaveToken | Authenticator/Classes/TokenManager.swift:111-123 | On success, exactly the items with the updated item's reference are replaced. References and saved order stay. On failure the result is false and nothing changes. |
| LegacyTokenManager.MoveToken | Authenticator/Classes/TokenManager.swift:125-131 | The length is kept and the moved item lands at the destination. The other items keep their relative order, the result is a permutation, and the order is saved. |
| LegacyTokenManager.RemoveToken | Authenticator/Classes/TokenManager.swift:133-141 | When the keychain deletes the item, exactly that index is removed and the order saved. Otherwise the result is false and nothing changes. |
| LegacyTokenManager.TimePeriods | Authenticator/Classes/TokenManager.swift:88-96 | The periods are strictly ascending and are exactly the timer periods of the items. |
| LegacyTokenManager.OperationsKeepOrderSaved | Authenticator/Classes/TokenManager.swift:98-141 | Once the saved order matches the list, every operation keeps it matching, whether it succeeds or fails. |
| Tokens.InsertPeriod | Authenticator/Source/TokenManager.swift:67-75 | Adding a period to a sorted, duplicate-free list keeps it sorted and duplicate-free, and adds exactly that period. |
| Tokens.TimeBasedTokenPeriods | Authenticator/Source/TokenManager.swift:66-75 | The periods are strictly ascending and are exactly the timer periods of the tokens. |
| Tokens.StrictlyIncreasingUnique | Authenticator/Source/TokenManager.swift:67-75 | Two ascending, duplicate-free lists with the same elements are equal, so the contract above determines the result. |
| Tokens.TimeBasedTokenPeriodsOrderFree | Authenticator/Source/TokenManager.swift:67-75 | The collected periods do not depend on the order of the tokens. |
| TokenManager.AddToken | Authenticator/Source/TokenManager.swift:77-81 | The call throws exactly when the keychain throws, and then nothing changes. Otherwise the token is appended under the new identifier and the order is saved. |
| TokenManager.SaveToken | Authenticator/Source/TokenManager.swift:87-96 | On success, exactly the tokens with the identifier are replaced, and identifiers and saved order stay. A throw changes nothing and is passed on. |
| TokenManager.MoveToken | Authenticator/Source/TokenManager.swift:98-103 | The length is kept and the token lands at the destination. The others keep their relative order, the result is a permutation, and the order is saved. |
| TokenManager.RemoveToken | Authenticator/Source/TokenManager.swift:105-110 | When the keychain deletes the token, exactly that index is removed and the order saved. A throw changes nothing and is passed on. |
| TokenManager.TimeBasedTokenPeriods | Authenticator/Source/TokenManager.swift:66-75 | The periods are strictly ascending and are exactly the timer periods of the list. |
| TokenManager.OperationsKeepOrderSaved | Authenticator/Source/TokenManager.swift:127-130 | Once the saved order equals the list's identifiers, every operation, succeeding or throwing, keeps it equal. |
| TokenManager.MoveTokenBack | Authenticator/Source/TokenManager.swift:98-103 | Moving a token and moving it back restores the manager. |
| TokenManager.AddThenRemove | Authenticator/Source/TokenManager.swift:77-110 | A successful add followed by removing the last token restores the manager. |
| TokenStore.AddToken | Authenticator/Source/TokenStore.swift:70-79 | On success the token is appended and the order saved. A keychain failure is swallowed and leaves the store unchanged. |
| TokenStore.SaveToken | Authenticator/Source/TokenStore.swift:81-95 | On success, exactly the tokens with the identifier are replaced, and identifiers and saved order stay. A failure changes nothing. |
| TokenStore.UpdatePersistentToken | Authenticator/Source/TokenStore.swift:97-100 | On success, the tokens with the identifier hold the successor of the token, and all others stay. A failure changes nothing. |
| TokenStore.MoveToken | Authenticator/Source/TokenStore.swift:102-107 | The length and the multiset of tokens are kept. The token lands at the destination, the others keep their order, and the order is saved. |
| TokenStore.DeleteToken | Authenticator/Source/TokenStore.swift:109-118 | The index is removed, and the order saved, only when the keychain deletes the token. Otherwise nothing changes. |
| TokenStore.OperationsKeepOrderSaved | Authenticator/Source/TokenStore.swift:137-140 | Once the saved order equals the list's identifiers, every operation keeps it equal. |
| TokenStore.SaveTokenIdempotent | Authenticator/Source/TokenStore.swift:81-95 | Saving the same token twice has the effect of saving it once. |
| TokenStore.AgreesWithManager | Authenticator/Source/TokenStore.swift:70-118 | Each store operation leaves the list exactly as the throwing manager's does. The store only drops the error. |
| TokenList.TimeBasedTokenPeriods | Authenticator/Source/TokenList.swift:80-90 | The periods are strictly ascending and are exactly the timer periods of the list. |
| TokenList.RingPeriod | Authenticator/Source/TokenList.swift:76-90 | The ring period is the smallest timer period, and there is none exactly when no token is timer-based. |
| TokenList.ViewModelOf | Authenticator/Source/TokenList.swift:72-78 | There is one row model per persistent token, in list order, each built from its token, and the ring period above. |
| TokenList.ViewModelRowsFollowTokens | Authenticator/Source/TokenList.swift:72-74 | Two rows of the view model share identity exactly when their tokens share an identifier. |
| TokenList.AddToken | Authenticator/Source/TokenList.swift:92-101 | On keychain success the token is appended and the order saved. Otherwise nothing changes. |
| TokenList.SaveToken | Authenticator/Source/TokenList.swift:103-117 | On success, exactly the tokens with the identifier are replaced, and identifiers and saved order stay. Otherwise nothing changes. |
| TokenList.UpdatePersistentToken | Authenticator/Source/TokenList.swift:129-132 | On success, the tokens with the identifier hold the successor of the token. Otherwise nothing changes. |
| TokenList.CopyPassword | Authenticator/Source/TokenList.swift:134-139 | The password goes to the pasteboard, the list is unchanged, and the banner says "Copied". |
| TokenList.MoveToken | Authenticator/Source/TokenList.swift:141-146 | The length and the multiset of tokens are kept. The token lands at the destination, the others keep their order, and the order is saved. |
| TokenList.DeletionFailedMessage | Authenticator/Source/TokenList.swift:148-159 | A failed deletion shows an error banner that names the keychain error. |
| TokenList.DeleteToken | Authenticator/Source/TokenList.swift:148-159 | On keychain success the index is removed, the order saved, and no banner shown. On failure the list is unchanged and an error banner is shown. |
| TokenList.OperationsKeepOrderSaved | Authenticator/Source/TokenList.swift:92-159 | Once the saved order equals the list's identifiers, every list operation keeps it equal. |
| TokenList.MoveKeepsPeriods | Authenticator/Source/TokenList.swift:80-90 | Moving a token changes neither the timer periods nor the ring period. |
| TokenList.AgreesWithStore | Authenticator/Source/TokenList.swift:92-159 | Each list operation, a deletion with its banner included, leaves the same tokens and saved order as the store's. |
| MemoryTokenStore.MakePersistentToken | AuthenticatorTests/MemoryTokenStore.swift:63-73 | A persistent token is built exactly when the URL exists and has bytes, and it carries the token and those bytes. Otherwise the URL error or `IdentifierMissing` is thrown. |
| MemoryTokenStore.AddToken | AuthenticatorTests/MemoryTokenStore.swift:34-37 | Exactly one token is appended when its identifier can be built. Otherwise the error propagates and the list is unchanged. |
| MemoryTokenStore.SaveToken | AuthenticatorTests/MemoryTokenStore.swift:39-41 | Saving leaves the in-memory list unchanged. |
| MemoryTokenStore.UpdatePersistentToken | AuthenticatorTests/MemoryTokenStore.swift:43-45 | Updating leaves the in-memory list unchanged. |
| MemoryTokenStore.DeletePersistentToken | AuthenticatorTests/MemoryTokenStore.swift:47-49 | Every token equal to the argument goes. Every other token stays, as often as before and in its relative order. |
| MemoryTokenStore.MoveToken | AuthenticatorTests/MemoryTokenStore.swift:51-54 | The length and multiset are kept. The token lands at the new index and the others keep their order. |
| MemoryTokenStore.DeleteAfterAdd | AuthenticatorTests/MemoryTokenStore.swift:34-49 | Deleting a token just added, and otherwise absent, restores the list. |
| Auth.Init | Authenticator/Source/Auth.swift:43-49 | The component starts locked and ready to prompt exactly when the screen lock is on, and unlocked otherwise. |
| Auth.ViewModelOf | Authenticator/Source/Auth.swift:57-59 | The lock screen shows exactly when the state is locked, whatever the prompting flag. |
| Auth.UpdateWithAction | Authenticator/Source/Auth.swift:79-85 | Trying to unlock always asks the system to authenticate and leaves the state alone. |
| Auth.UpdateWithEvent | Authenticator/Source/Auth.swift:87-116 | Becoming active prompts exactly when locked and ready to prompt, and changes nothing. Resigning relocks from anywhere. A success unlocks. A failure of the automatic prompt stops automatic prompting but keeps the lock, and other failures change nothing. |
| Auth.NoPromptWithoutResign | Authenticator/Source/Auth.swift:87-116 | Outside the ready-to-prompt state, no sequence of events without a resignation prompts or reaches that state. |
| Auth.FailedPromptIsNotRepeated | Authenticator/Source/Auth.swift:89-112 | After a failed automatic prompt, becoming active yields nothing until the next resignation. |
| Auth.ResignThenActivePrompts | Authenticator/Source/Auth.swift:89-101 | Resigning and then becoming active prompts, from any state. |
| Auth.LockedUntilSuccess | Authenticator/Source/Auth.swift:87-116 | A locked component stays locked until an authentication succeeds. |
| Menu.BackupInfo | Authenticator/Source/Info.swift:40-42 | The backup page is found exactly when its file is found, titled "Backups". |
| Menu.LicenseInfo | Authenticator/Source/Info.swift:44-46 | The licence page is found exactly when its file is found, titled "Acknowledgements". |
| Menu.Init | Authenticator/Source/Menu.swift:49-52 | A new menu has no child. |
| Menu.InitWithInfo | Authenticator/Source/Menu.swift:54-57 | A menu made with an info page starts with that page open. |
| Menu.ShowInfo | Authenticator/Source/Menu.swift:169-174 | An info page opens only over no child. Otherwise the transition is refused. |
| Menu.DismissInfoPage | Authenticator/Source/Menu.swift:176-181 | Dismissing succeeds only while an info page is open, and returns to no child. |
| Menu.ShowDisplayOptions | Authenticator/Source/Menu.swift:183-188 | The display options open only over no child. |
| Menu.DismissDisplayOptionsPage | Authenticator/Source/Menu.swift:190-195 | Dismissing succeeds only while the display options are open, and returns to no child. |
| Menu.AfterTransition | Authenticator/Source/Menu.swift:95-101 | A transition returns no effect. A refusal is thrown with the menu unchanged. |
| Menu.HandleInfoListEffect | Authenticator/Source/Menu.swift:114-143 | Done is passed on. A page whose file is missing gives an error message and leaves the child alone. Otherwise the page or the display options open through the guarded transitions. |
| Menu.HandleInfoEffect | Authenticator/Source/Menu.swift:145-152 | An info page's effects become the menu's, one for one, with the same URL. |
| Menu.HandleDisplayOptionsEffect | Authenticator/Source/Menu.swift:154-161 | The display options' effects become the menu's, one for one, with the same size. |
| Menu.Update | Authenticator/Source/Menu.swift:93-112 | A throw is always `badChildState` and leaves the menu unchanged. A dismissal returns no effect and succeeds exactly from its own page. Forwarded child effects never change the child. |
| Menu.UpdateMovesAlongAllowedPaths | Authenticator/Source/Menu.swift:93-195 | Any update keeps the child or moves between no child and a page. A newly opened info page is the backup or licence page, opened from the info list. |
| Menu.ShowThenDismissInfo | Authenticator/Source/Menu.swift:93-181 | Opening the backup page and dismissing it returns to the menu as it was, with no effects. |
| Menu.ChildViewModelOf | Authenticator/Source/Menu.swift:37-46 | The child's view model has the same case as the child and carries that child's view model. |
| Menu.ViewModelOf | Authenticator/Source/Menu.swift:59-61 | The menu shows the fixed info list and the child's view model. |
| InfoList.NonBreaking | Authenticator/Source/InfoList.swift:50-54 | Every ordinary space becomes a no-break space and every other character stays, so no ordinary space is left. |
| InfoList.NonBreakingIdempotent | Authenticator/Source/InfoList.swift:50-54 | Making a string non-breaking twice is the same as once. |
| InfoList.ViewModelOf | Authenticator/Source/InfoList.swift:43-57 | The list is titled "Info" and has two rows: "Backups" showing backup info, then "Open Source" showing licence info. Each call to action is its literal with no ordinary space. |
| InfoList.CallsToActionSpelledOut | Authenticator/Source/InfoList.swift:50-54 | The calls to action read "Learn More →" and "View Acknowledgements →", with no-break spaces. |
| TokenScanner.Init | Authenticator/Source/TokenScanner.swift:34-36 | A new scanner is scanning. |
| TokenScanner.ViewModelOf | Authenticator/Source/TokenScanner.swift:44-46 | The scanner scans exactly until a token has been found. |
| TokenScanner.Update | Authenticator/Source/TokenScanner.swift:64-86 | Every action gives an effect. Cancel and manual entry pass through unchanged. Unparseable text reports "Invalid Token". A capture error reports "Capture Failed". Only a parsed token changes the state, stopping the scan and saving the token. |
| TokenScanner.TokenFoundIsMonotone | Authenticator/Source/TokenScanner.swift:64-86 | After any actions, a token has been found exactly when one had been before or some scanned text parses. Scanning never resumes. |
| TokenEntryForm.Init | Authenticator/Source/TokenEntryForm.swift:59-70 | A new form is empty: a 6-digit SHA-1 timer token, advanced options hidden, no failure, and not valid. |
| TokenEntryForm.AdvancedRows | Authenticator/Source/TokenEntryForm.swift:87-95 | The advanced section holds the token type, digit count and algorithm controls, in that order. They select the state's token type, digit count and algorithm, and each sends its change action. They are exactly the rows the shared builders of the form-row file make. |
| TokenEntryForm.ViewModelOf | Authenticator/Source/TokenEntryForm.swift:76-100 | The table is titled "Add Token" with Cancel, and Done enabled exactly when the form is valid. The three fields hold the typed values. The advanced section is empty until opened, and once opened it holds the advanced rows for the current state. "Invalid Token" shows exactly after a failed submission. |
| TokenEntryForm.DefaultFactor | Authenticator/Source/TokenEntryForm.swift:29-30 | A counter token starts at count 0 and a timer token has a 30-second period. |
| TokenEntryForm.Submit | Authenticator/Source/TokenEntryForm.swift:200-236 | An invalid form does nothing. A token is saved exactly when the form is valid, the secret decodes to at least one byte and the library accepts the generator. The token is built from the form's values and default factor. Any other valid submission marks the form failed. |
| TokenEntryForm.HandleAction | Authenticator/Source/TokenEntryForm.swift:161-197 | A field action sets exactly that field with no effect. Opening the advanced options only sets that flag. Cancel asks to close and changes nothing. The advanced options are never hidden again. |
| TokenEntryForm.AdvancedOptionsStayOpen | Authenticator/Source/TokenEntryForm.swift:189-192 | After any actions, the advanced options are shown exactly when they were before or an action opened them. |
| TokenEntryForm.FilledFormIsValid | Authenticator/Source/TokenEntryForm.swift:48-80 | A fresh form with an issuer and a secret typed in enables Done. |
| TokenEditForm.Init | Authenticator/Source/TokenEditForm.swift:43-47 | The fields start as the token's issuer and name. The form is valid exactly when one of them is non-empty. |
| TokenEditForm.ViewModelOf | Authenticator/Source/TokenEditForm.swift:58-77 | The table is titled "Edit Token" with Cancel, and Done enabled exactly when valid. One section holds the issuer and name fields with the current values. |
| TokenEditForm.SubmitForm | Authenticator/Source/TokenEditForm.swift:113-122 | A save is sent exactly when the form is valid. It carries the form's name and issuer with the original generator, for the original persistent token. |
| TokenEditForm.HandleAction | Authenticator/Source/TokenEditForm.swift:79-111 | A field callback changes only its field and sends nothing. Cancel sends `CancelTokenEdit`. Neither button changes the state, and the edited token never changes. |
| TokenEditForm.UntouchedSubmitSavesSameToken | Authenticator/Source/TokenEditForm.swift:113-122 | Submitting an untouched form saves the original token unchanged. |
| LegacyTokenEditForm.Init | Authenticator/Classes/TokenEditForm.swift:101-105 | The fields start as the token's issuer and name. |
| LegacyTokenEditForm.Cancel | Authenticator/Classes/TokenEditForm.swift:109-111 | Cancelling tells the delegate. |
| LegacyTokenEditForm.Submit | Authenticator/Classes/TokenEditForm.swift:113-124 | An invalid form does nothing. A valid one sets the name and issuer and always tells the delegate about the token. The keychain is written exactly when the form is valid and the name or issuer changed. The generator is kept. |
| LegacyTokenEditForm.UnchangedSubmitOnlyNotifies | Authenticator/Classes/TokenEditForm.swift:113-124 | Submitting an unedited form writes nothing, and the delegate still hears about the unchanged token. |
| Root.Init | Authenticator/Source/Root.swift:52-56 | The root starts with no modal. |
| Root.ViewModelOf | Authenticator/Source/Root.swift:58-75 | The shown modal mirrors the modal state case for case, and a form shows its own view model. |
| Root.BeginManualEntry | Authenticator/Source/Root.swift:200-203 | Manual entry opens a fresh entry form. |
| Root.HandleTokenListEffect | Authenticator/Source/Root.swift:130-155 | Beginning entry opens the scanner when the device can scan, and a fresh form otherwise. Beginning an edit opens the edit form for that token. The store updates leave the modal alone. |
| Root.HandleTokenEntryEffect | Authenticator/Source/Root.swift:158-168 | Either way the form closes. A new token is passed on to be added. |
| Root.HandleTokenEditEffect | Authenticator/Source/Root.swift:171-181 | Either way the form closes. Changes are passed on to be saved to the original token. |
| Root.HandleTokenScannerEffect | Authenticator/Source/Root.swift:184-198 | Cancelling closes the scanner. Manual entry opens a fresh form. A scanned token closes the scanner and is passed on to be added. |
| Root.HandleAction | Authenticator/Source/Root.swift:93-128 | List actions never give an effect, and a list effect moves the modal as the list-effect handler says. A form's action is ignored unless that form is open. An open form keeps its new state when its action gives no effect. Otherwise the form's effect goes to that form's effect handler. A scanner effect goes to the scanner-effect handler, whatever the modal state. An effect comes only as the modal closes. |
| Root.TypingKeepsEntryForm | Authenticator/Source/Root.swift:102-111 | Typing an issuer or a secret into the open entry form keeps the form open, holding the new text, with no effect. |
| Root.EditSubmit | Authenticator/Source/Root.swift:113-122 | Submitting a valid edit form closes it and asks the store to save the renamed token, with the original generator, into the form's persistent token. An invalid form stays open. |
| Root.EditThenCancel | Authenticator/Source/Root.swift:130-142 | Beginning an edit from the list opens that token's form. Cancelling it then closes the modal with no effect. |
| Root.EditSavesOnlyItsToken | Authenticator/Source/Root.swift:93-181 | During an edit session, every effect is a save to the token being edited, and the modal is that token's form or closed. |
| Root.ClosedFormsIgnoreActions | Authenticator/Source/Root.swift:102-122 | With no modal open, any sequence of form actions changes nothing and gives no effect. |
| AppModel.Init | Authenticator/Source/AppModel.swift:48-50 | The app starts with no modal over the loaded token list. |
| AppModel.HandleAction | Authenticator/Source/AppModel.swift:61-96 | Beginning entry opens the scanner or a fresh form by device. Manual entry opens a fresh form. Beginning an edit opens its form. Saves and cancels close the modal. A URL token is added without touching the modal. Only the three token-carrying actions change the list, through the list's add and save. |
| AppModel.HandleActionKeepsOrderSaved | Authenticator/Source/AppModel.swift:61-96 | Every app action keeps the token list's saved order equal to its identifiers. |
| AppModel.ModalTransitionsMatchRoot | Authenticator/Source/AppModel.swift:63-91 | The app model reaches the same modal state as the root component for every shared transition. |
| AppModel.URLTokenKeepsOpenForm | Authenticator/Source/AppModel.swift:93-94 | A token added from a URL while a form is open leaves the form open and is appended all the same. |
| TableViewModel.NumberOfRowsInSection | Authenticator/Source/TableViewModel.swift:59-64 | The count is the section's row count, or 0 for a section that does not exist. |
| TableViewModel.ModelForRow | Authenticator/Source/TableViewModel.swift:66-75 | The lookup is empty exactly when the section or row is out of range, and otherwise is that row. |
| TableViewModel.ModelForHeader | Authenticator/Source/TableViewModel.swift:77-82 | The header is empty for a missing section, and otherwise is that section's header. |
| TableViewModel.RowLookupMatchesRowCount | Authenticator/Source/TableViewModel.swift:59-75 | A row exists exactly at the indices below the reported row count. |
| TableViewModel.CountedRowsAreTheRows | Authenticator/Source/TableViewModel.swift:59-75 | Reading every counted row in order gives back the section's rows. |
| LegacyTableViewModel.BasicNumberOfRowsInSection | Authenticator/Classes/TableViewModel.swift:30-34 | The count is 0 below the first or past the last section, and the section's cell count otherwise. |
| LegacyTableViewModel.BasicCellForRow | Authenticator/Classes/TableViewModel.swift:36-43 | The lookup is empty for any out-of-range section or row, and otherwise is the stored cell. |
| LegacyTableViewModel.BasicHeader | Authenticator/Classes/TableViewModel.swift:45-47 | A basic table has no headers. |
| LegacyTableViewModel.BasicAgreesWithSections | Authenticator/Classes/TableViewModel.swift:30-47 | The basic table answers every lookup as the general table view model does for the same rows without headers. |
| LegacyTableViewModel.FormNumberOfRowsInSection | Authenticator/Classes/TokenForm.swift:59-63 | The count is 0 for a missing section, and the section's row count otherwise. |
| LegacyTableViewModel.FormCellForRow | Authenticator/Classes/TokenForm.swift:65-72 | The lookup is empty when the section or row is out of range, and otherwise is the row. |
| LegacyTableViewModel.FormHeader | Authenticator/Classes/TokenForm.swift:74-78 | The header is empty for a missing section, and otherwise is the section's header. |
| LegacyTableViewModel.FormDefaultsAgree | Authenticator/Classes/TokenForm.swift:59-78 | The token form's default lookups agree with the newer table view model's. |
| SegmentedControl.Init | Authenticator/Source/SegmentedControlRow.swift:28-37 | There is one segment per option, in order, each with its title and the change action for its value. The selection is the first option holding the value, or none when no option holds it. |
| SegmentedControl.SelectedSegmentSendsCurrentValue | Authenticator/Source/SegmentedControlRow.swift:33-36 | Tapping the selected segment sends the change action for the current value. |
| TokenFormRows.IssuerRow | Authenticator/Source/TokenFormRowModels.swift:34-45 | The issuer field keeps the given value and action. It capitalises words, keeps the default autocorrection and keyboard, and moves on with Next. |
| TokenFormRows.NameRow | Authenticator/Source/TokenFormRowModels.swift:47-58 | The name field keeps the value and action, uses an e-mail keyboard without corrections, and the caller's return key. |
| TokenFormRows.SecretRow | Authenticator/Source/TokenFormRowModels.swift:60-71 | The secret field keeps the value and action. It uses no capitalisation or corrections and the default keyboard, and finishes with Done. |
| TokenFormRows.TokenTypeRow | Authenticator/Source/TokenFormRowModels.swift:75-81 | The options are time based then counter based, and each type selects its own segment. |
| TokenFormRows.DigitCountRow | Authenticator/Source/TokenFormRowModels.swift:83-90 | The options are 6, 7 and 8 digits in order. 6 to 8 digits select segments 0 to 2, and any other count selects none. |
| TokenFormRows.AlgorithmRow | Authenticator/Source/TokenFormRowModels.swift:92-99 | The options are SHA-1, SHA-256 and SHA-512 in order, and each algorithm selects its segment. |
| SegmentedControlRowModel.TokenTypeRowModel | Authenticator/Source/SegmentedControlRowModel.swift:39-53 | There are exactly two segments, timer at 0 and counter at 1, each selected by its own type. |
| SegmentedControlRowModel.DigitCountSegments | Authenticator/Source/SegmentedControlRowModel.swift:65-74 | There are three segments, 6, 7 and 8 digits, each sending its count. |
| SegmentedControlRowModel.DigitCountSelectedIndex | Authenticator/Source/SegmentedControlRowModel.swift:75-77 | 6, 7 and 8 select segments 0, 1 and 2, and any other count selects none. |
| SegmentedControlRowModel.AlgorithmSegments | Authenticator/Source/SegmentedControlRowModel.swift:90-99 | There are three segments, SHA-1, SHA-256 and SHA-512, each sending its algorithm. |
| SegmentedControlRowModel.AlgorithmSelectedIndex | Authenticator/Source/SegmentedControlRowModel.swift:100-102 | SHA-1, SHA-256 and SHA-512 select segments 0, 1 and 2. |
| SegmentedControlRowModel.SelectionMatchesValue | Authenticator/Source/SegmentedControlRowModel.swift:55-103 | The selected segment always sends the current value again. |
| Form.HasSameIdentityIsSameKind | Authenticator/Source/FormModels.swift:36-47 | Two rows share identity exactly when they are the same kind of row. The relation is reflexive, symmetric and transitive. |
| Form.TextFieldRowsShareIdentity | Authenticator/Source/FormModels.swift:37-41 | Two text-field rows share identity whatever they show. |
| TokenFormModels.HasSameIdentityIsEquivalence | Authenticator/Source/TokenFormModels.swift:37-46 | Rows share identity exactly when they are of the same kind with equal identity strings. The relation is an equivalence. |
| DisplayOptions.DigitGroupRowModel | Authenticator/Source/DisplayOptions.swift:53-62 | The row has the digit-group identity, segments for groups of two then three, and sizes 2 and 3 select segments 0 and 1. Any other size selects none. |
| DisplayOptions.ViewModelOf | Authenticator/Source/DisplayOptions.swift:44-51 | The screen is titled "Display Options" with Done on the right and on the keyboard, and one section holding the digit-group row. |
| DisplayOptions.OnlyRowIsDigitGroupRow | Authenticator/Source/DisplayOptions.swift:44-62 | The table's only row is at section 0 row 0, and its selected segment re-sends the current size. |
| DisplayOptionsViewController.TitledRow | Authenticator/Source/DisplayOptionsViewController.swift:240-251 | The titled row has one segment per option, in order, each with the change action for its value. The selection is the first matching option, or none. |
| DisplayOptionsViewController.DigitGroupRowModel | Authenticator/Source/DisplayOptionsViewController.swift:219-229 | The row is titled "Digit Grouping", has the digit-group identity, and offers groups of two then three. |
| DisplayOptionsViewController.InternalViewModel | Authenticator/Source/DisplayOptionsViewController.swift:210-217 | The table is titled "Display Options" with Done on the bar and the keyboard, and one section holding one row. |
| DisplayOptionsViewController.InternalViewModelMatchesDisplayOptions | Authenticator/Source/DisplayOptionsViewController.swift:210-229 | The controller's table matches the display options' view model in everything but the row title. |
| TokenRowModel.Init | Authenticator/Source/TokenRowModel.swift:41-55 | Name and issuer are copied. The password is the current password, or empty. The button shows exactly for counter tokens. Select copies the password. Button, edit and delete carry the token, and the identifier is the token's. |
| TokenRowModel.InitIdentity | Authenticator/Source/TokenRowModel.swift:57-59 | Two rows share identity exactly when their tokens have equal identifiers. |
| TokenRowModel.ActionEqualsAsWritten | Authenticator/Source/TokenRowModel.swift:73-102 | The operator as written answers within its first call whenever the left action carries a payload. |
| TokenRowModel.ActionEqualsAsWrittenDiverges | Authenticator/Source/TokenRowModel.swift:75-99 | Comparing two payload-free actions never returns, however many calls are allowed. |
| TokenRowModel.BeginAddTokenNeverEqualsItself | Authenticator/Source/TokenRowModel.swift:75-76 | `BeginAddToken == BeginAddToken` does not return. |
| TokenRowModel.ActionEquals | Authenticator/Source/TokenRowModel.swift:73-102 | The intended equality holds exactly for the same case with equal payloads. |
| TokenRowModel.ActionEqualsAsWrittenAgrees | Authenticator/Source/TokenRowModel.swift:77-101 | When one side carries a payload, the operator as written answers within two calls, and its answer is the intended one. |
| TokenRowModel.RowEquals | Authenticator/Source/TokenRowModel.swift:62-71 | Rows are equal exactly when every field except the delete action is equal. |
| TokenRowModel.RowActionsCompareAsWritten | Authenticator/Source/TokenRowModel.swift:62-71 | For rows built from tokens, the row equality's action comparisons all return, with the intended answers. |
| TokenRowModel.InitRowsEqual | Authenticator/Source/TokenRowModel.swift:41-71 | Rows built from the same token and password are equal. |
| LegacyTokenRowModel.Init | Authenticator/Classes/TokenRowModel.swift:18-23 | Name and issuer are copied, the password is the token's or empty, and the button shows exactly for counter tokens. |
| LegacyTokenRowModel.AsLegacy | Authenticator/Classes/TokenRowModel.swift:13-16 | An older token shows the same name, issuer, password and kind as the newer token. |
| LegacyTokenRowModel.AgreesWithNewerRow | Authenticator/Classes/TokenRowModel.swift:18-23 | The older row shows exactly what the newer row shows for the same token. |

## Left out

- The OneTimePassword library is not part of this model. That covers password generation (section 5.3 of RFC 4226, RFC 6238), the `otpauth` URL and base32 codecs, `Token(url:)`, `updatedToken()` and `toURL()`. Their outcomes are parameters.
- Keychain calls and the user defaults are not modelled. The keychain is represented by its reply, and the saved order is a field of the store state. An updated keychain item is assumed to keep its identifier.
- The initial sort of the `Source` token managers is left out. Its comparator treats a token with an unknown identifier as equal to everything. That is not a strict weak order, so the code does not determine the result. The keychain-item sort of the `Classes` manager is modelled instead.
- `numberOfTokens` and `numberOfSections` are plain sequence lengths.
- Delegate forwards and presenter callbacks are not modelled, and neither is `keychainItemAtIndex`.
- UIKit views, cells, view controllers and navigation are not modelled. A bar button built without `enabled` is taken to be enabled.
- `Classes/TokenEntryForm.swift` keeps its state in text fields, and its validity rule repeats the one of `Source/TokenEntryForm.swift`.
- Timer periods are `NSTimeInterval`s. Since only comparisons are used, they are whole numbers here.
- Swift array slices are taken to start at index 0.
- Persistent tokens compare structurally.
- `TableDiff.Change`: `TableDiff.swift` declares four cases, including `Move`. The two update extensions switch over three cases, `Update(old, new)` among them. The diff and the planners therefore use separate change types.
- `Root.HandleAction`: the entry and edit forms return app actions, but the root expects form effects named `Cancel`, `SaveNewToken` and `SaveChanges`. `CancelTokenEntry` and `CancelTokenEdit` are read as `Cancel`.
- `TokenEntryForm.ViewModel`: the shown table view model has no error line, so the form's view model pairs the table with its error message.
- `Root.HandleTokenListEffect`: `TokenList.handleAction` and the list's effect type are not part of this model. The effect cases are those `Root.swift` switches over.
  - The store updates these effects request are not modelled; the modal state is. `deletePersistentToken`, which `Root.swift` calls, is not among the shown store's operations.
- `Root.HandleTokenScannerEffect`: the scanner view controller's effect type is not part of this model. It is read as cancel, manual entry and scanned token.
- `AppModel.HandleAction`: the app model handles 8 of the 14 app actions, and the model has only those 8. The others belong to components outside this model. `AppModel.swift` builds its token list with an initializer the shown `TokenList` does not declare, so the list is its storage.
- `InfoList.Effect`: the menu switches over a `ShowDisplayOptions` case that `InfoList.swift` does not declare. The model adds it.
- `Menu.BackupInfo`: the bundle lookup is the path parameter, and a missing file is the only load failure.
- `LegacyTokenEditForm.Submit`: the keychain write's own result is ignored, as the code ignores it.
- `LegacyTokenManager.MatchRefs`: its own contract does not say which item each reference takes. `LegacyTokenManager.MatchRefsOrder` states that, so the recursion's cost stays low.
- `LegacyTokenManager.SortedByPersistentRefs`: its own contract states only the permutation. The order is stated by `MatchRefs`, `MatchRefsOrder` and `SortByOwnRefs`.
- `TableDiff.Diff`: its own contract gives length bounds only. The counting and index facts are in `TableDiff.DiffAccounts`, and optimality is in `TableDiff.DiffIsShortest`.
- `DisplayOptionsViewController.DigitGroupRowModel`: its contract leaves out the selection. `InternalViewModelMatchesDisplayOptions` equates it with the display options row's selection.
- Scanning, the watch app, the action extension, drawing code, demo fixtures and the app delegates are I/O, foreign frameworks or presentation, and are not modelled.

## Findings

| source | as written | input that shows it | evidently intended | confidence | as-written member | corrected member |
|---|---|---|---|---|---|---|
| Authenticator/Source/TokenRowModel.swift:73-102 | A payload-free case answers by calling `==` again with `rhs` on the left and its own case on the right. Two payload-free actions therefore call each other forever. | `BeginAddToken == BeginAddToken`, or `UpdateViewModel == BeginAddToken` | Payload-free actions are equal exactly when they are the same case | not executed | TokenRowModel.ActionEqualsAsWritten | TokenRowModel.ActionEquals |
