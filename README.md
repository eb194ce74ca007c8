# Secure crop key: a verified model of the soil-moisture hook and the crop page

This project models, in Dafny, the behaviour of two parts of the secure-crop-key
application.

The first is the encrypted soil-moisture front end. The `useSoilMoisture` React hook
chooses an EIP-1193 provider. It records an encrypted moisture percentage on the
`EncryptedSoilMoisture` contract, decrypts the caller's latest value through the FHEVM
coprocessor, and loads the stored ciphertext handle. The record dialog validates the
typed value before it hands it to the hook. The contract itself is observed only
through the Hardhat tests, so it is modelled as a map from owner to latest record.

The second is the crop page. It keeps a list of crops that can be added, updated and
deleted. An add/edit dialog holds a form that it dispatches either to `onAdd` or to
`onUpdate`. Each crop card masks its two "encrypted" fields behind a show/hide toggle.

How the model is built:

- Every call to the outside world is a reply the caller supplies. These calls are
  encryption, `getCode`, the transaction, `hasInitialized`, the handle getter,
  signing, `userDecrypt` and `getBlockNumber`. A reply is either a value or a
  `Failure` record carrying `reason`, `message` and `code`.
- The hook's workflows are pure step functions on a `State` record: `RecordStep`,
  `DecryptStep` and `LoadStep`. Each returns the new state, whether the call resolved
  or rejected, and the calls made, in order.
- The `Hook` class holds the four state fields the source updates. Its methods assign
  them step by step, and each method is proved to end in the state its step function
  gives.
- The crop page is a `Page` class over a `seq<Crop>`. The list transforms are
  functions on sequences, and the handlers are methods that reassign the fields.

Behaviour of the code that the model follows, and that a reader might not expect:

- The hook's own range check is `moisture < 0 || moisture > 100`. It lets NaN through,
  so NaN is modelled as passing. Only the record dialog rejects NaN.
- `recordMoisture` never clears or updates the decrypted value.
- `loadEncryptedMoisture` caches the handle exactly as the getter returns it, without
  lower-casing. The refresh after a record lower-cases every handle it caches.
  `decryptMoisture` lower-cases a handle only when it starts with "0x", and keeps any
  other handle as it is.
- The refresh guard `contractAddress && ethersProvider && address` after the
  transaction always holds, because the same values were checked at entry. It is not
  modelled as a branch.
- The page passes `open` and `onOpenChange` to `AddCropDialog` while a crop is being
  edited (src/pages/Index.tsx:151). The dialog reads neither prop. `handleEditCrop`
  therefore sets the page's dialog flag but does not open the dialog.
- The dialog's form is initialised once, when it mounts. Choosing a crop to edit later
  does not fill the form. `Page.HandleEditCrop` and `Form.ReceiveProps` state this.
- The page renders the dialog only while a wallet is connected (src/pages/Index.tsx:70-134).
  Disconnecting unmounts it. Connecting again mounts a new dialog, whose form starts from
  the crop being edited at that moment. `Page.SetConnected` states this.

## Model

| member | source | states |
|---|---|---|
| Provider.Resolve | ui/src/hooks/useSoilMoisture.tsx:42-59 | Chain 31337 gives the fixed URL `http://localhost:8545`. Otherwise the transport's `value` is used if it has `request`, then the transport if it has `request`, then `window.ethereum`, then nothing. Each outcome is stated as an if-and-only-if over the inputs. |
| Provider.LocalChainIgnoresWallet | ui/src/hooks/useSoilMoisture.tsx:43-45 | On the local chain the result is the same whatever the wallet and the browser offer. |
| Provider.ProviderFoundIffOffered | ui/src/hooks/useSoilMoisture.tsx:46-58 | Off the local chain, a provider is returned exactly when the transport or the browser offers one. |
| Text.NotAuthorizedContainsAuthorized | ui/src/hooks/useSoilMoisture.tsx:371 | A message containing "not authorized" also contains "authorized", so the first disjunct of the test never decides the outcome. |
| Text.ToLower | ui/src/hooks/useSoilMoisture.tsx:205 | `toLowerCase` on ASCII: the length is kept, and each character is mapped by LowerChar. |
| Text.ToLowerIdempotent | ui/src/hooks/useSoilMoisture.tsx:257 | Lower-casing twice is the same as lower-casing once. |
| Text.ToLowerKeepsHexPrefix | ui/src/hooks/useSoilMoisture.tsx:256-258 | Lower-casing keeps the "0x" prefix. |
| Text.IndexOfFrom | ui/src/hooks/useSoilMoisture.tsx:339 | Returns the first position at or after `from` where the pattern occurs, or none when it occurs nowhere after `from`. |
| Text.RemoveFirstFacts | ui/src/hooks/useSoilMoisture.tsx:339 | `replace("0x", "")` drops a leading "0x". It keeps a string with no "0x" unchanged. It removes exactly two characters when "0x" occurs anywhere. |
| Text.NotDeployedIsShortCode | ui/src/hooks/useSoilMoisture.tsx:164-168 | The not-deployed test holds exactly for code of at most two characters. The refresh test `code && code.length > 2` is its exact negation. |
| Text.NatToDecimal | ui/src/hooks/useSoilMoisture.tsx:366 | The decimal rendering of the value is non-empty and made of digits only. |
| Text.NatToDecimalRoundTrip | ui/src/hooks/useSoilMoisture.tsx:366 | Reading the rendered digits back gives the value. |
| SoilMoisture.RecordPrecondition | ui/src/hooks/useSoilMoisture.tsx:104-143 | Checks in order: contract address, signer, FHEVM instance, address, provider, then range. Each error occurs exactly when its check is the first to fail. The result is none exactly when the session is complete and the value is in range. |
| Text.RemoveFirst | ui/src/hooks/useSoilMoisture.tsx:339 | `replace` of the first occurrence never lengthens the text. The text is unchanged exactly when the pattern is empty or does not occur in it. |
| Text.NotDeployed | ui/src/hooks/useSoilMoisture.tsx:164-168 | Code counts as not deployed exactly when it has at most two characters, so "0x" and the empty code both count. |
| SoilMoisture.OutOfRange | ui/src/hooks/useSoilMoisture.tsx:139 | The hook's range check holds exactly for values other than NaN that are not finite numbers between 0 and 100. |
| SoilMoisture.AcceptedHandle | ui/src/hooks/useSoilMoisture.tsx:260 | The handle check accepts exactly the strings of 66 characters, so the empty handle and "0x" are refused. |
| SoilMoisture.DecryptedValue | ui/src/hooks/useSoilMoisture.tsx:363 | The decrypted value is the coprocessor's entry for the handle when there is one, and otherwise 0. It is always 0 or a value the coprocessor returned. |
| SoilMoisture.RecordStep | ui/src/hooks/useSoilMoisture.tsx:93-231 | Recording never changes the decrypted value. It resolves only when every check passed and the transaction was confirmed. An out-of-range value is rejected before any outside call. |
| SoilMoisture.RefreshStep | ui/src/hooks/useSoilMoisture.tsx:195-220 | The refresh after a record always resolves. It keeps the decrypted value and the loading flag. It extends the call log it is given and starts with the code check. |
| SoilMoisture.RefreshCallsFrom | ui/src/hooks/useSoilMoisture.tsx:189-220 | The refresh's calls and final state do not depend on the calls made before it: its calls are simply appended. |
| SoilMoisture.NormalizeHandle | ui/src/hooks/useSoilMoisture.tsx:256-258 | Normalisation keeps the length. A "0x"-prefixed handle keeps its prefix and loses every upper-case letter. Any other handle is kept as it is. |
| SoilMoisture.SignatureForDecrypt | ui/src/hooks/useSoilMoisture.tsx:338-340 | The signature never grows. It is changed exactly when the chain is 31337 and "0x" occurs in it. |
| SoilMoisture.DecryptErrorMessage | ui/src/hooks/useSoilMoisture.tsx:369-383 | The text is either the permission explanation or "Error decrypting: " followed by the message. A message mentioning "authorized" always gets the permission explanation. |
| SoilMoisture.DecryptStep | ui/src/hooks/useSoilMoisture.tsx:233-388 | Decryption never changes the loading flag. |
| SoilMoisture.Authorize | ui/src/hooks/useSoilMoisture.tsx:274-385 | The grant, signing and `userDecrypt` part never changes the loading flag or the cached handle. |
| SoilMoisture.LoadErrorText | ui/src/hooks/useSoilMoisture.tsx:430-449 | On chain 31337, an `UNKNOWN_ERROR` or -32603 code, or a "Failed to fetch" message, gives the Hardhat-down text. Elsewhere, such a code gives "Network error: " followed by the error's message, or by "Failed to connect to blockchain" when it has none; "Failed to fetch" with any other code gives the network text. An error with neither gives its own text. |
| SoilMoisture.LoadStep | ui/src/hooks/useSoilMoisture.tsx:390-453 | Loading always resolves. Without a contract, provider or address it changes nothing and calls nothing. Otherwise it ends not loading. When every reply succeeds for a deployed contract and a recorded owner, the handle is cached exactly as the getter returned it and nothing else but the loading flag changes. |
| SoilMoisture.Hook.constructor | ui/src/hooks/useSoilMoisture.tsx:34-37 | The hook starts with no handle, no decrypted value, not loading and no message. |
| SoilMoisture.Hook.RecordMoisture | ui/src/hooks/useSoilMoisture.tsx:93-231 | The method's final state, outcome and call log are those of `RecordStep` on the state it started from. |
| SoilMoisture.Hook.Refresh | ui/src/hooks/useSoilMoisture.tsx:195-220 | The post-record refresh ends in `RefreshStep`'s handle and message and returns the calls `RefreshStep` makes, which the record appends to its own log. It leaves the decrypted value and the loading flag unchanged. |
| SoilMoisture.Hook.DecryptMoisture | ui/src/hooks/useSoilMoisture.tsx:233-388 | The method's final state, outcome and call log are those of `DecryptStep`. |
| SoilMoisture.Hook.RequestDecryption | ui/src/hooks/useSoilMoisture.tsx:274-385 | The keypair, signing and `userDecrypt` part of decryption ends in the state, outcome and calls of `Authorize`. |
| SoilMoisture.Hook.LoadEncryptedMoisture | ui/src/hooks/useSoilMoisture.tsx:390-453 | The method's final state, outcome and call log are those of `LoadStep`. |
| SoilMoistureFacts.RecordPreconditionFailure | ui/src/hooks/useSoilMoisture.tsx:104-143 | When a check fails, the call throws that check's message and makes no outside call. Only the message changes. |
| SoilMoistureFacts.RecordRangeBoundary | ui/src/hooks/useSoilMoisture.tsx:139-143 | With a complete session, 0, 100, 65.5 and NaN pass. -1, 100.5, 101 and both infinities are rejected with the range message. |
| SoilMoistureFacts.RecordOutcome | ui/src/hooks/useSoilMoisture.tsx:145-228 | The call resolves exactly when the transaction was confirmed; refresh failures never make it throw. After the checks, `isLoading` always ends false. The decrypted value is never touched. |
| SoilMoistureFacts.RecordRejectionMessage | ui/src/hooks/useSoilMoisture.tsx:221-225 | A rejection after the checks sets "Error: " followed by the error's reason, else its message, else its text. The cached handle is kept. |
| SoilMoistureFacts.RecordRethrows | ui/src/hooks/useSoilMoisture.tsx:145-226 | After the checks, the call rejects with the error of the first failing reply (encryption, code check, transaction), rethrown unchanged, or with the hook's own error for undeployed code or an encryption without handle or proof. |
| SoilMoistureFacts.RecordRefresh | ui/src/hooks/useSoilMoisture.tsx:189-219 | Gives the message and cached handle for each refresh outcome. Only a fully successful refresh replaces the handle, and it stores the lower-cased one. |
| SoilMoistureFacts.RecordSubmission | ui/src/hooks/useSoilMoisture.tsx:164-184 | An out-of-range value makes no call. A submission happens only after every check, a usable encryption and deployed code. It sends the first handle, the proof and gas limit 5000000. |
| SoilMoistureFacts.RecordCallOrder | ui/src/hooks/useSoilMoisture.tsx:151-198 | A confirmed record calls, in order: encrypt, code check, submit, the 2000 ms wait, then the refresh's code check. |
| SoilMoistureFacts.DecryptMissingRequirements | ui/src/hooks/useSoilMoisture.tsx:235-238 | A missing requirement sets its message and resolves. Nothing is thrown and nothing is called. |
| SoilMoistureFacts.DecryptUninitialized | ui/src/hooks/useSoilMoisture.tsx:245-249 | An owner without a record gets the not-recorded error, with its classified message, after a single `hasInitialized` call. |
| SoilMoistureFacts.AcceptedHandleIsLength66 | ui/src/hooks/useSoilMoisture.tsx:260 | The handle check accepts exactly the strings of 66 characters. |
| SoilMoistureFacts.NormalizeHandleFacts | ui/src/hooks/useSoilMoisture.tsx:256-258 | Normalisation keeps the length. It lower-cases a "0x"-prefixed handle and keeps any other handle unchanged. |
| SoilMoistureFacts.DecryptHandleValidation | ui/src/hooks/useSoilMoisture.tsx:252-361 | Any handle sent to `userDecrypt` is the normalised handle, 66 characters long. The signature sent with it is the stripped one. A handle of the wrong length throws the invalid-format error before any decryption. |
| SoilMoistureFacts.DecryptStoresHandleFirst | ui/src/hooks/useSoilMoisture.tsx:272-366 | An accepted handle is cached even if a later step fails. The call resolves exactly when the grant, the signature and the decryption all succeed. The value is the coprocessor's entry for the handle, or 0 when there is none. |
| SoilMoistureFacts.SignatureForDecryptFacts | ui/src/hooks/useSoilMoisture.tsx:338-340 | Off chain 31337 the signature is passed as is. On 31337 a leading "0x" is dropped, and a signature with no "0x" in it is unchanged. |
| SoilMoistureFacts.DecryptErrorClassification | ui/src/hooks/useSoilMoisture.tsx:369-383 | The permission explanation is shown exactly when the message contains "authorized". Otherwise the text is "Error decrypting: " followed by the message. |
| SoilMoistureFacts.DecryptRethrows | ui/src/hooks/useSoilMoisture.tsx:367-385 | Every rejection carries the classified message of the error it rethrows. |
| SoilMoistureFacts.DecryptRejectsWithFailingReply | ui/src/hooks/useSoilMoisture.tsx:240-385 | With every requirement present, the rejection is the failed `hasInitialized` or getter reply's error, rethrown unchanged, or the hook's own error for an owner without a record or a handle of the wrong length. |
| SoilMoistureFacts.AuthorizeRejectsWithFailingReply | ui/src/hooks/useSoilMoisture.tsx:274-385 | After the handle is accepted, the rejection is the error of the first failing grant, signature or coprocessor reply. With all three successful the call resolves. |
| SoilMoistureFacts.LoadOutcome | ui/src/hooks/useSoilMoisture.tsx:390-453 | Loading never rejects. Without a contract, provider or address it changes nothing and calls nothing. Otherwise it ends with `isLoading` false. The decrypted value is either kept or cleared. |
| SoilMoistureFacts.LoadClears | ui/src/hooks/useSoilMoisture.tsx:412-426 | Undeployed code clears the handle and sets the not-deployed message. An owner without a record clears both the handle and the decrypted value. |
| SoilMoistureFacts.LoadFailures | ui/src/hooks/useSoilMoisture.tsx:395-449 | Every failing reply is caught. On chain 31337 a failed block-number request only sets the Hardhat-down message. Otherwise a failed request sets "Error loading moisture: " and the classified text, ends loading, and keeps the cached handle and decrypted value. |
| SoilMoistureFacts.LoadAfterRecords | ui/src/hooks/useSoilMoisture.tsx:390-453 | Round trip for loading: after any sequence of records, loading against the contract's storage caches exactly the getter's handle of the caller's latest record. A caller who never recorded has both cached values cleared. |
| SoilMoistureFacts.WorkflowsEndIdle | ui/src/hooks/useSoilMoisture.tsx:145-452 | Starting from not loading, each of the three workflows ends not loading. |
| SoilMoistureFacts.ToLowerOfLower | ui/src/hooks/useSoilMoisture.tsx:257 | Lower-casing a string with no upper-case ASCII letter changes nothing. |
| SoilMoistureFacts.WellFormedHandleIsNormal | ui/src/hooks/useSoilMoisture.tsx:256-262 | A handle as the contract stores it survives normalisation unchanged and passes the length check. |
| SoilMoistureFacts.DecryptHonest | ui/src/hooks/useSoilMoisture.tsx:245-366 | Against truthful replies from a store, a recorded owner gets their recorded value and caches the stored handle. An owner without a record is told to record first. |
| SoilMoistureFacts.DecryptAfterRecords | test/EncryptedSoilMoisture.ts:74-109 | Round trip: after any sequence of records by any owners, decryption returns the value of the caller's latest record. An owner who never recorded is told to record first. |
| SoilMoistureFacts.RecordThenDecrypt | ui/src/hooks/useSoilMoisture.tsx:93-388 | Round trip through the hook: a confirmed record of an integer percentage encrypts that number and submits its ciphertext. Once the contract stores the transaction's handle for the user, decryption with truthful replies resolves to the recorded value and caches that handle. |
| Ledger.GetHandle | test/EncryptedSoilMoistureSepolia.ts:66-67 | A non-zero handle from the getter means the owner has recorded. Over a store of well-formed handles, the handle is non-zero exactly when the owner has recorded. |
| Ledger.GetHandleAfterRecords | test/EncryptedSoilMoisture.ts:74-109 | After any sequence of records from a fresh deployment, the getter returns the handle of the owner's latest record, or the zero handle when the owner never recorded. |
| Ledger.Apply | test/EncryptedSoilMoisture.ts:74-109 | A record adds or overwrites the sender's entry and leaves every other owner's entry unchanged. |
| Ledger.LastBy | test/EncryptedSoilMoisture.ts:74-109 | The result is a transaction of the owner in the sequence, with no later transaction by that owner. None is returned exactly when the owner sent nothing. |
| Ledger.ApplyAllKeepsLatest | test/EncryptedSoilMoisture.ts:74-156 | Each owner's entry is that owner's latest write. An owner without writes keeps what it had. |
| Ledger.ApplyAllSnoc | test/EncryptedSoilMoisture.ts:74-109 | Applying a sequence and then one more write is the same as applying the longer sequence. |
| Ledger.FreshDeploymentIsEmpty | test/EncryptedSoilMoisture.ts:41-44 | After deployment no owner is initialised, and the getter returns the zero handle. |
| Ledger.SecondRecordOverwrites | test/EncryptedSoilMoisture.ts:74-109 | After two records by the same owner, only the second can be read. |
| Ledger.OwnersAreIsolated | test/EncryptedSoilMoisture.ts:111-156 | Records by two different owners do not disturb each other. |
| Ledger.ApplyAllWellFormed | test/EncryptedSoilMoistureSepolia.ts:66-67 | Recording well-formed handles keeps every stored handle well formed. |
| Ledger.RecordedHandleIsNonZero | test/EncryptedSoilMoistureSepolia.ts:66-67 | A recorded owner's handle is never the zero handle and has 66 characters. |
| RecordDialog.Rejects | ui/src/components/RecordMoistureDialog.tsx:23 | The dialog rejects a value exactly when it is not a finite number between 0 and 100 inclusive. |
| RecordDialog.RejectsIsRangeOrNaN | ui/src/components/RecordMoistureDialog.tsx:21-26 | The dialog rejects exactly NaN and the values the hook's range check rejects. |
| RecordDialog.ForwardedValuesPassRangeCheck | ui/src/components/RecordMoistureDialog.tsx:21-29 | A value the dialog forwards never fails the hook's range check. With a complete session, all of the hook's checks pass. |
| RecordDialog.DialogAcceptsBoundaries | ui/src/components/RecordMoistureDialog.tsx:23 | 0, 100 and 0.1 are forwarded. NaN, -0.1 and 100.1 are rejected. |
| RecordDialog.ErrorToastText | ui/src/components/RecordMoistureDialog.tsx:34 | The error toast is never empty. It shows the error's message when there is one, and the fallback text otherwise. |
| RecordDialog.ConfigurationErrorToast | ui/src/components/RecordMoistureDialog.tsx:19-36 | A value forwarded to a hook that is not fully configured is rejected before any call. The error toast repeats the configuration message the hook shows. |
| RecordDialog.Dialog.constructor | ui/src/components/RecordMoistureDialog.tsx:15-16 | The dialog starts closed with an empty input, bound to its hook. |
| RecordDialog.Dialog.HandleSubmit | ui/src/components/RecordMoistureDialog.tsx:19-36 | A rejected value shows the validation toast and changes nothing. Otherwise the hook ends in `RecordStep`. On success the dialog closes and its input is cleared. On failure both stay as they were and the toast shows the error's text. |
| RecordDialog.Dialog.SetOpen | ui/src/components/RecordMoistureDialog.tsx:39 | `setOpen` changes only the open flag. The typed text is kept. |
| RecordDialog.Dialog.Type | ui/src/components/RecordMoistureDialog.tsx:60 | The input's change handler stores the typed text. The open flag is kept. |
| RecordDialog.Dialog.Cancel | ui/src/components/RecordMoistureDialog.tsx:80 | Cancel closes the dialog and keeps the typed text. |
| Crops.Appended | src/pages/Index.tsx:42-48 | The list grows by one. Earlier crops keep their order and contents. The new last crop has the given fields and id. |
| Crops.Replaced | src/pages/Index.tsx:50-51 | The length is kept. Every crop with the update's id becomes the update, and every other crop stays in place. |
| Crops.Removed | src/pages/Index.tsx:56-58 | The result contains exactly the crops whose id differs from the given one. |
| Crops.InitialCropIds | src/pages/Index.tsx:12-37 | The initial list holds two crops, with ids "1" and "2". |
| Crops.ReplacedKeepsIds | src/pages/Index.tsx:50-51 | An update keeps the sequence of ids. An absent id leaves the list unchanged. |
| Crops.RemovedDistributes | src/pages/Index.tsx:57 | Filtering distributes over concatenation, so the remaining crops keep their relative order. |
| Crops.RemovedAbsent | src/pages/Index.tsx:57 | Deleting an absent id changes nothing. |
| Crops.RemovedIdempotent | src/pages/Index.tsx:57 | Deleting twice is the same as deleting once. |
| Crops.RemovedCounts | src/pages/Index.tsx:57 | As multisets, every crop with the id is gone and every other crop keeps its count. |
| Crops.AddThenDeleteRestores | src/pages/Index.tsx:42-58 | Deleting a crop just added under a fresh id gives back the original list. |
| Crops.ReplacedIdempotent | src/pages/Index.tsx:51 | Applying the same update twice is the same as applying it once. |
| Crops.ReplacedThenRemoved | src/pages/Index.tsx:50-58 | Deleting after an update is the same as deleting without the update. |
| CropsPage.PageView | src/pages/Index.tsx:70-173 | The landing page shows exactly when no wallet is connected. The empty state shows exactly when connected with no crops. Otherwise the grid shows every crop in list order. |
| CropsPage.InitialPageViews | src/pages/Index.tsx:12-173 | Connected, the grid shows the two initial crops. After both are deleted, the empty state shows. |
| CropsPage.SubmitEffect | src/pages/Index.tsx:42-54 | A submit while a crop is being edited keeps the list's ids in order and puts the form under the edited id when that id is listed. With nothing being edited, exactly one crop carrying the form is added at the end. |
| CropsPage.Page.constructor | src/pages/Index.tsx:12-152 | The page starts with the initial crops, nothing being edited and the flag cleared. Its dialog starts empty and closed, and is rendered only if a wallet is connected. |
| CropsPage.Page.SetConnected | src/pages/Index.tsx:70-152 | Connecting after a disconnect mounts a new dialog whose form starts from the crop being edited. Otherwise the dialog is kept. The page's list, edited crop and flag survive both. |
| CropsPage.Page.HandleAddCrop | src/pages/Index.tsx:42-48 | The new list is `Appended` with the given id. The other fields are unchanged. |
| CropsPage.Page.HandleUpdateCrop | src/pages/Index.tsx:50-54 | The new list is `Replaced`. Nothing is being edited and the flag is cleared. |
| CropsPage.Page.HandleDeleteCrop | src/pages/Index.tsx:56-58 | The new list is `Removed`. The other fields are unchanged. |
| CropsPage.Page.HandleEditCrop | src/pages/Index.tsx:60-63 | The crop is remembered and the flag is set. The list, the dialog's open flag and its form are unchanged. |
| CropsPage.Page.HandleDialogClose | src/pages/Index.tsx:65-68 | The flag and the crop being edited are cleared. |
| CropsPage.Page.SubmitDialog | src/pages/Index.tsx:147-152 | Only a connected page's dialog can be submitted. While a crop is being edited, the form's fields replace that crop under its own id. Otherwise they are appended under the fresh id. Either way the dialog closes and its form is cleared, and it keeps the page's edited crop and `onUpdate` as its props. |
| CropForm.OrElse | src/components/AddCropDialog.tsx:19-27 | The result is one of the two operands, and the non-empty first one when it is non-empty. It is empty exactly when both are. |
| CropForm.InitialForm | src/components/AddCropDialog.tsx:18-28 | The initial form is exactly the edited crop's fields, or the empty form with stage Seeding. |
| CropForm.Dispatched | src/components/AddCropDialog.tsx:32-36 | An update is dispatched exactly when a crop is being edited and `onUpdate` is present. It keeps the edited crop's id. An add carries the form unchanged. |
| CropForm.DispatchCarriesForm | src/components/AddCropDialog.tsx:32-36 | Whichever callback is called carries the form's fields. With `editCrop` but no `onUpdate`, it is an add. |
| CropForm.Form.constructor | src/components/AddCropDialog.tsx:17-28 | The dialog mounts closed, with the initial form. |
| CropForm.Form.ReceiveProps | src/components/AddCropDialog.tsx:16-28 | New props do not re-run the initialiser: the form and the open flag are kept. |
| CropForm.Form.SetOpen | src/components/AddCropDialog.tsx:52 | `setOpen` changes only the open flag. |
| CropForm.Form.SetFormData | src/components/AddCropDialog.tsx:70-170 | An input change replaces the form and nothing else. |
| CropForm.Form.Cancel | src/components/AddCropDialog.tsx:177 | Cancel only closes the dialog. It calls no callback and keeps the form. |
| CropForm.Form.HandleSubmit | src/components/AddCropDialog.tsx:30-49 | The dispatch is `Dispatched` on the props and form before the submit. The dialog is closed and the form reset to empty with stage Seeding. |
| CropCard.Min | src/components/CropCard.tsx:39 | `Math.min` gives the smaller of its arguments. |
| CropCard.Dots | src/components/CropCard.tsx:39 | The mask literal repeated n times has 3n characters, each the matching character of the literal. |
| CropCard.Utf16Length | src/components/CropCard.tsx:39 | `text.length` counts UTF-16 units: at least the number of characters and at most twice it, and exactly it when no character lies beyond the Basic Multilingual Plane. |
| CropCard.EncryptedText | src/components/CropCard.tsx:37-41 | Masked, the output has 3·min(UTF-16 length, 20) characters, all from the mask literal. Shown, it is the text itself. |
| CropCard.MaskedShape | src/components/CropCard.tsx:37-40 | Masked output is 3·min(UTF-16 length, 20) characters, at most 60, all taken from the mask literal, and never shorter than the character count allows. |
| CropCard.MaskDependsOnLengthOnly | src/components/CropCard.tsx:39 | Texts of equal UTF-16 length mask alike, and so do all texts of 20 units or more. Texts of different UTF-16 lengths, at least one below 20, mask differently. |
| CropCard.AstralCharacterMasksTwice | src/components/CropCard.tsx:39 | One character beyond the Basic Multilingual Plane masks to two literals; one ordinary character masks to one. |
| CropCard.ShownIsIdentity | src/components/CropCard.tsx:41 | Unmasked, the text is shown unchanged. |
| CropCard.ToggleTwiceRestores | src/components/CropCard.tsx:35-89 | Two presses restore the mode. One press from the initial masked state shows the text. |
| CropCard.StageColor | src/components/CropCard.tsx:12-32 | Each of the five growth stages has a non-empty colour, so the lookup is total. |
| CropCard.StageColorsDistinct | src/components/CropCard.tsx:26-32 | No two stages share a colour. |

## Left out

- FHEVM cryptography and wallet signing are not modelled. Encryption, `generateKeypair`, `createEIP712`, `signTypedData` and `userDecrypt` appear only as replies and as logged calls.
- The keypair and EIP-712 fallback (ui/src/hooks/useSoilMoisture.tsx:281-328) is folded into one `grant` reply. The typed-data encoding is not modelled.
- Network I/O is not modelled: `getCode`, `getBlockNumber`, the transaction and its receipt, `hasInitialized` and the getter. Each is a reply that either succeeds or fails with an error record.
- Time is not modelled. The 2000 ms settle wait is only logged as a call, and the decryption request's start timestamp is not represented.
- The React lifecycle is not modelled: dependency arrays, the ethers signer setup (ui/src/hooks/useSoilMoisture.tsx:70-91), the auto-load effect (ui/src/hooks/useSoilMoisture.tsx:455-459) and `console` logging. The session (contract, signer, FHEVM instance, address, provider, chain id) is a fixed input to each hook.
- The record dialog and the moisture card each create their own hook instance. The model has one hook per dialog and does not model sharing state between instances.
- `parseFloat` is not modelled; the dialog receives the parsed Number (NaN, an infinity or a real). `toFixed` formatting in the moisture card is left out, as is the rest of the card, the header, the app shell and the wagmi configuration.
- Text.ToLower: lower-cases ASCII letters only, not the full Unicode mapping of `toLowerCase`. Contract handles are ASCII hex.
- SoilMoisture.DecryptedValue: treats the coprocessor's decrypted entry as a non-negative integer and does not model `Number()` of other values.
- Concurrent runs of one hook's workflows are not modelled. Each workflow is one atomic step from the state the previous one left. In the source, `decryptMoisture` never sets `isLoading` (ui/src/components/SoilMoistureCard.tsx:106-110 only disables the button while loading), and the auto-load effect (ui/src/hooks/useSoilMoisture.tsx:455-459) can fire in the middle of another workflow. Interleaved runs overwrite each other's `message` and `encryptedMoisture`.
- SoilMoistureFacts.WorkflowsEndIdle: holds only for workflows run one after another, not for interleaved runs.
- SoilMoistureFacts.RecordThenDecrypt: the handle the contract stores for a transaction is a parameter. The link between the ciphertext bytes and that handle is not modelled, and neither is the contract's treatment of non-integer values.
- Crop ids from `Date.now().toString()` (src/pages/Index.tsx:45) are a parameter. Nothing assumes they are unique, except the lemma that needs a fresh id and says so.
- The form's nine per-field `onChange` handlers are modelled as a single replacement of the whole form record.
- Dialog rendering, the trigger button, the dialog titles and the toast display are not modelled, beyond the open flags and the toast texts.
