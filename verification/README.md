# Asset management: a Dafny model of the forms, pages and REST core

This project models the core of a small asset-management system. It has two halves.

The React front end:
- the generic configuration-driven form, its field control and upload widget;
- the static form templates and the category-specific extension fields;
- the "smart" and wrapper forms that fill select options from fetched lists;
- the hand-written simple forms, with their state, edit fill, validation, payloads and error banners;
- the file display widget;
- the logic of the dashboard, assets, warranties and asset detail pages.

The Django REST back end:
- the model constraints (decimal columns, unique keys, one-to-one links, choices, cascading deletes, default orderings);
- the base64 file conversion in the serializers and the list serializer's field set;
- the custom view actions (search, by-status, by-category, by-asset, by-department, expiring warranties, active vendors, serializer choice);
- the idempotent seeding command.

A form's state and a payload are `map<string, Value>`. `Value` covers the JSON-like values the code handles: string, number, boolean, null and byte string. JavaScript's `||`, truthiness, `parseInt` and `Number` are defined in `JsValues`. Python's `int()` is defined in `Views`. Base64 is the encoding of section 4 of RFC 4648, with a proved round trip. Dates are integer day numbers on the back end and integer milliseconds on the pages. "Now" and "today" are parameters. API calls are abstract outcomes: success, or failure with an optional `detail`. The search box's text is put into the URL unencoded; `QueryString` models what the URL parser and Django's query-string parsing make of it.

## Model

| member | source | states |
|---|---|---|
| `JsValues.ParseIntNatToString` | asset_frontend/src/pages/AssetDetail.jsx:61-71 | `parseInt` reads the decimal text of every natural number back as that number |
| `JsValues.ToNumberNatToString` | asset_frontend/src/components/SimpleAssetForm.jsx:132-148 | `Number` reads the decimal text of every natural number back as that number |
| `Base64.DecodeEncode` | asset_backend/asset_backend_app/serializers.py:52-66 | decoding the encoding of any byte string gives the byte string back |
| `Base64.EncodeLength` | asset_backend/asset_backend_app/serializers.py:52-55 | the encoding has four characters per started group of three bytes |
| `Base64.EncodeAlphabet` | asset_frontend/src/components/DynamicForm.jsx:46-56 | every encoded character is in the alphabet or is '='; in particular none is a comma |
| `Base64.EncodeEmptyIff` | asset_backend/asset_backend_app/serializers.py:52-55 | the encoding is empty exactly for the empty byte string |
| `Models.AmountBounds` | asset_backend/asset_backend_app/models.py:95 | a cost of 0 is rejected and 0.01 is accepted; a half cent does not fit two decimal places, and 9999999999.99 is the largest cost that fits twelve digits |
| `Models.ZeroAllowed` | asset_backend/asset_backend_app/models.py:213 | book values, maintenance costs and final values may be 0.00; -0.01 is rejected |
| `Models.RateUnbounded` | asset_backend/asset_backend_app/models.py:212 | a depreciation rate may be negative or above 100; only its five digits limit it |
| `Models.FitsTwoPlaces` | asset_backend/asset_backend_app/models.py:95 | a value fits a column of n digits, two of them decimal, exactly when it has at most two decimal places and lies within plus or minus (10^n - 1)/100 |
| `Models.AmountRange` | asset_backend/asset_backend_app/models.py:95 | an asset cost or invoice total (line 130) is accepted exactly when it has two places and lies in [0.01, 9999999999.99] |
| `Models.BookValueRange` | asset_backend/asset_backend_app/models.py:213 | a book value is accepted exactly when it has two places and lies in [0, 9999999999.99] |
| `Models.SmallAmountRange` | asset_backend/asset_backend_app/models.py:242 | a maintenance cost or final value (line 271) is accepted exactly when it has two places and lies in [0, 99999999.99] |
| `Models.RateRange` | asset_backend/asset_backend_app/models.py:212 | a depreciation rate is accepted exactly when it has two places and lies in [-999.99, 999.99] |
| `Models.OneEndOfLife` | asset_backend/asset_backend_app/models.py:268 | in a valid database two end-of-life records of the same asset are the same record |
| `Models.OneMappingPerPair` | asset_backend/asset_backend_app/models.py:159 | in a valid database an asset is linked to a given invoice at most once |
| `FormConfigs.CategoryFields` | asset_frontend/src/config/formConfigs.js:459-571 | the extension is non-empty exactly for the four extended labels; no extension field is required; names are distinct |
| `FormConfigs.CategoryFieldOrder` | asset_frontend/src/config/formConfigs.js:461-566 | the field names of each of the four extensions, in their fixed order |
| `FormConfigs.AssetNamesUnique` | asset_frontend/src/config/formConfigs.js:5-140 | the asset template's field names are distinct |
| `FormConfigs.WarrantyNamesUnique` | asset_frontend/src/config/formConfigs.js:161-220 | the warranty template's field names are distinct |
| `FormConfigs.MaintenanceNamesUnique` | asset_frontend/src/config/formConfigs.js:234-310 | the maintenance template's field names are distinct |
| `FormConfigs.DepreciationNamesUnique` | asset_frontend/src/config/formConfigs.js:315-375 | the depreciation template's field names are distinct |
| `FormConfigs.InvoiceNamesUnique` | asset_frontend/src/config/formConfigs.js:380-446 | the invoice template's field names are distinct |
| `FormConfigs.ExtensionsDisjointFromAsset` | asset_frontend/src/config/formConfigs.js:459-571 | no extension field shares a name with an asset template field |
| `FormConfigs.DescriptionIsLast` | asset_frontend/src/config/formConfigs.js:130-139 | 'description' is the last asset field and occurs nowhere before it |
| `FormConfigs.StaticOptionsDistinct` | asset_frontend/src/config/formConfigs.js:252-259 | maintenance_type and currency each offer six pairwise distinct values |
| `FormConfigs.FileCeilings` | asset_frontend/src/config/formConfigs.js:141-156 | the attachment slots and ceilings: 5 MiB for receipts, warranty documents and invoices, 10 MiB for manuals, none for maintenance and depreciation |
| `FormConfigs.CategoryLookup` | asset_frontend/src/config/formConfigs.js:570 | indexing the object literal by a label finds its own extension exactly for the four extended labels, an inherited `Object.prototype` method exactly for the eleven method names, the prototype object for "__proto__", and the empty fallback exactly for every other label |
| `FieldControl.Matching` | asset_frontend/src/components/DynamicFormField.jsx:34-36 | a suggestion is kept exactly when it contains the typed text ignoring case |
| `FieldControl.MatchingAppend` | asset_frontend/src/components/DynamicFormField.jsx:34-36 | filtering a concatenation filters each part in turn, so kept suggestions keep their order |
| `FieldControl.MatchingAll` | asset_frontend/src/components/DynamicFormField.jsx:34-36 | when every suggestion matches, the list comes back unchanged |
| `FieldControl.InputChange` | asset_frontend/src/components/DynamicFormField.jsx:27-40 | the text is emitted once; suggestions are recomputed only for a text field with a suggestion list and a non-empty text, and the dropdown opens exactly when one matches |
| `FieldControl.TextareaNoSuggestions` | asset_frontend/src/components/DynamicFormField.jsx:33-39 | typing in a textarea never opens the dropdown |
| `FieldControl.EchoShowsEmitted` | asset_frontend/src/components/DynamicFormField.jsx:17-19 | after typing, choosing or clicking, the parent echoes the one emitted text back as `value` and the field shows exactly what the handler set |
| `FieldControl.SelectIsPlainInput` | asset_frontend/src/components/DynamicFormField.jsx:42-46 | choosing an option is typing without the suggestion step: for a field with no suggestion list the two handlers agree (the select's inline handler, lines 191-194, does the same) |
| `FieldControl.ClickedSuggestionMatches` | asset_frontend/src/components/DynamicFormField.jsx:48-52 | clicking an entry of the list that typing produced shows and emits one of the field's own suggestions, one containing the typed text, and closes the dropdown |
| `FieldControl.TypedSuggestionKept` | asset_frontend/src/components/DynamicFormField.jsx:33-39 | typing a suggestion's own text keeps it in the list and opens the dropdown |
| `FieldControl.InputType` | asset_frontend/src/components/DynamicFormField.jsx:95-112 | the input is numeric exactly for a number field whose name marks a date, year, amount or percentage; date, email, tel and url map to themselves; everything else is text |
| `FieldControl.MileageIsText` | asset_frontend/src/components/DynamicFormField.jsx:95-112 | a number field named mileage renders as text |
| `FieldControl.PowerConsumptionIsText` | asset_frontend/src/components/DynamicFormField.jsx:95-112 | a number field named power_consumption renders as text |
| `FieldControl.SelectPlaceholder` | asset_frontend/src/components/DynamicFormField.jsx:198 | a select's trigger text is never empty: a non-empty configured placeholder wins, else "Select " and the caption |
| `FieldControl.PlaceholderRules` | asset_frontend/src/components/DynamicFormField.jsx:114-147 | a configured placeholder is shown by every kind of field; without one a select shows "Select " and its caption even when its name has a per-name default, any other field that default or else its caption |
| `FieldControl.PlaceholderNeverBlank` | asset_frontend/src/components/DynamicFormField.jsx:114-147 | a select always shows a non-empty placeholder, and so does every field with a caption |
| `FieldControl.CategoryPlaceholder` | asset_frontend/src/components/DynamicFormField.jsx:198 | the asset template's category select shows its configured "Select category" (formConfigs.js:42), before and after its options are filled |
| `FieldControl.ValidationAttrs` | asset_frontend/src/components/DynamicFormField.jsx:149-174 | truthy settings are copied; a money name forces min 0 and step 0.01; a percentage name forces min 0, max 100 and step 0.01; an email field, and only it, gets the fixed pattern |
| `FieldControl.ZeroMinDropped` | asset_frontend/src/components/DynamicFormField.jsx:153 | a configured minimum of 0 on a name that is neither money nor percentage is dropped |
| `FieldControl.MileageField` | asset_frontend/src/config/formConfigs.js:495-503 | the mileage extension renders as text and loses its configured minimum of 0 |
| `FieldControl.RateField` | asset_frontend/src/components/DynamicFormField.jsx:164-168 | a field named rate gets min 0, max 100 and step 0.01 whatever it configures |
| `DynamicForm.InitValues` | asset_frontend/src/components/DynamicForm.jsx:18-24 | the keys are exactly the field names, each holding the initial value when truthy, else '' |
| `DynamicForm.Mount` | asset_frontend/src/components/DynamicForm.jsx:14-25 | after mounting the value keys are the field names, each holding `initialData[name] || ''`; no file is chosen and there is no error |
| `DynamicForm.ExtensionFieldsStartUnset` | asset_frontend/src/components/DynamicForm.jsx:18-25 | the smart form mounts before a category is chosen, so no extension field has a key at first |
| `DynamicForm.FieldChange` | asset_frontend/src/components/DynamicForm.jsx:27-37 | only the named key changes; files and error are kept; the hook, when present, gets the same pair |
| `DynamicForm.FileChange` | asset_frontend/src/components/DynamicForm.jsx:39-44 | only the named file slot is set or cleared |
| `DynamicForm.AfterFirstComma` | asset_frontend/src/components/DynamicForm.jsx:51 | the second piece of the split is undefined exactly when the text has no comma |
| `DynamicForm.ExtractDataUrl` | asset_frontend/src/components/DynamicForm.jsx:46-56 | for a MIME type without a comma, the extracted text is the base64 encoding of the file and decodes back to its bytes |
| `DynamicForm.OwnKeysDisjoint` | asset_frontend/src/components/DynamicForm.jsx:71-74 | two different file slots never synthesise the same key |
| `DynamicForm.AddFileHasEntries` | asset_frontend/src/components/DynamicForm.jsx:71-74 | a chosen file adds exactly its four keys, with its data, name, type and size, and leaves every other key alone |
| `DynamicForm.PayloadMeetsSpec` | asset_frontend/src/components/DynamicForm.jsx:63-77 | the payload is the values, overridden by exactly the four entries of each chosen file, for every value map, slot list and file choice |
| `DynamicForm.NoFilesPayload` | asset_frontend/src/components/DynamicForm.jsx:63-77 | with no file chosen the payload is the value map itself |
| `DynamicForm.Submit` | asset_frontend/src/components/DynamicForm.jsx:58-83 | the sent payload meets the payload description; values and files are kept; the error is empty exactly on success |
| `DynamicForm.FailureBanner` | asset_frontend/src/components/DynamicForm.jsx:80-82 | on failure the banner is the server's detail when truthy, else 'Failed to submit form' |
| `FileUpload.RoundMiB` | asset_frontend/src/components/FileUpload.jsx:23 | the ceiling in MiB rounded to nearest, halves up |
| `FileUpload.RoundWholeMiB` | asset_frontend/src/components/FileUpload.jsx:23 | a ceiling of n whole MiB reads as n |
| `FileUpload.AcceptEntries` | asset_frontend/src/components/FileUpload.jsx:28 | one trimmed entry per comma-separated piece, and at least one |
| `FileUpload.IsValidType` | asset_frontend/src/components/FileUpload.jsx:28-40 | the loop answers true exactly when some trimmed entry matches the file |
| `FileUpload.AnyEntryMatches` | asset_frontend/src/components/FileUpload.jsx:32-40 | the scan answers true exactly when some entry matches |
| `FileUpload.HandleFiles` | asset_frontend/src/components/FileUpload.jsx:17-58 | no file does nothing; too big sets the size message; a refused type sets the type message; otherwise the file is handed up once with no error, and a preview exists exactly for images |
| `FileUpload.OnlyFirstFile` | asset_frontend/src/components/FileUpload.jsx:17-19 | files after the first never matter |
| `FileUpload.HandleSelection` | asset_frontend/src/components/FileUpload.jsx:70-85 | dropping and picking take the same path as `handleFiles` |
| `FileUpload.RemoveFile` | asset_frontend/src/components/FileUpload.jsx:87-94 | the parent receives null once; error and preview are cleared |
| `FileUpload.SizeCheckedFirst` | asset_frontend/src/components/FileUpload.jsx:21-45 | an oversized file of a refused type reports the size |
| `FileUpload.CeilingInclusive` | asset_frontend/src/components/FileUpload.jsx:22-25 | a file exactly at the ceiling passes the size rule |
| `FileUpload.CeilingMessages` | asset_frontend/src/components/FileUpload.jsx:23 | the template ceilings read "5MB" and "10MB" in the message |
| `FileUpload.TwoEntries` | asset_frontend/src/components/FileUpload.jsx:28 | a list of two comma-free, trimmed entries splits back into those two |
| `FileUpload.ImagePdfEntries` | asset_frontend/src/components/FileUpload.jsx:28 | the receipt accept list splits into the image wildcard and ".pdf" |
| `FileUpload.ImageWildcard` | asset_frontend/src/components/FileUpload.jsx:35-36 | the image wildcard matches exactly the MIME types starting with "image/" |
| `FileUpload.ZipRefused` | asset_frontend/src/components/FileUpload.jsx:32-44 | a zip archive whose name does not end in .pdf is refused by the receipt list |
| `FileUpload.ReceiptPdfAccepted` | asset_frontend/src/components/FileUpload.jsx:33-34 | receipt.pdf is accepted whatever MIME type the browser reports |
| `ConfigAlgebra.NamedOptions` | asset_frontend/src/components/SmartAssetForm.jsx:52-62 | one option per fetched row, in order, valued by its id and labelled by its name |
| `ConfigAlgebra.AssetOptions` | asset_frontend/src/components/AddWarrantyForm.jsx:30-37 | one option per asset, in order, valued by its id and labelled "name (code)" |
| `ConfigAlgebra.Substitute` | asset_frontend/src/components/SmartAssetForm.jsx:48-65 | same length, order and names; only the named fields change, and only in their options |
| `ConfigAlgebra.SubstituteIdempotent` | asset_frontend/src/components/SmartAssetForm.jsx:48-65 | filling the options twice equals filling them once |
| `ConfigAlgebra.FindIndex` | asset_frontend/src/components/SmartAssetForm.jsx:72 | the first index with the name, or -1 exactly when no field has it |
| `ConfigAlgebra.SpliceBeforeDescription` | asset_frontend/src/components/SmartAssetForm.jsx:72-77 | the extension is inserted contiguously and in order before the first 'description', or appended when there is none |
| `ConfigAlgebra.SmartAssetFields` | asset_frontend/src/components/SmartAssetForm.jsx:44-82 | the smart form has the template's fields plus the selected label's extension, and fails with a `TypeError` exactly when the label names an inherited method with a positive `length` |
| `ConfigAlgebra.AddAssetConfig` | asset_frontend/src/components/AddAssetForm.jsx:43-63 | the add form keeps the template's title, files and field names |
| `ConfigAlgebra.SmartWithoutCategory` | asset_frontend/src/components/SmartAssetForm.jsx:68-79 | with no selection, or a label without extension, the smart form shows exactly the add form's fields, unless the label names an inherited method whose spread throws |
| `ConfigAlgebra.PrototypeLabels` | asset_frontend/src/components/SmartAssetForm.jsx:67-79 | a category named "constructor" makes the form fail; "toString" and "__proto__" show the plain fields |
| `ConfigAlgebra.SmartWithCategory` | asset_frontend/src/components/SmartAssetForm.jsx:68-79 | with an extended label the extension sits immediately before the last field, 'description' |
| `ConfigAlgebra.SwitchingCategoryReplaces` | asset_frontend/src/components/SmartAssetForm.jsx:44-82 | recomputing from the template leaves no Vehicles field after switching to Electronics, and the length is the template's plus two |
| `ConfigAlgebra.AssetOptionsFollowFetched` | asset_frontend/src/components/AddAssetForm.jsx:47-60 | category, location, vendor and status get the fetched lists as options |
| `ConfigAlgebra.SelectedCategory` | asset_frontend/src/components/SmartAssetForm.jsx:85-92 | the name of the first category whose id loosely equals the value, else '' |
| `ConfigAlgebra.ChoosingCategoryById` | asset_frontend/src/components/SmartAssetForm.jsx:85-92 | choosing an id, which arrives as its decimal text, selects that category's name |
| `ConfigAlgebra.CategoryHook` | asset_frontend/src/components/SmartAssetForm.jsx:141-145 | only a change of the 'category' field re-selects |
| `ConfigAlgebra.AddWarrantyConfig` | asset_frontend/src/components/AddWarrantyForm.jsx:25-43 | only 'asset' receives options; every other field and the files are the template's |
| `ConfigAlgebra.AddMaintenanceConfig` | asset_frontend/src/components/AddMaintenanceForm.jsx:25-43 | only 'asset' receives options; maintenance_type keeps its static six |
| `ConfigAlgebra.AddDepreciationConfig` | asset_frontend/src/components/AddDepreciationForm.jsx:31-58 | 'asset' and 'method' receive options; the rest is the template's |
| `ConfigAlgebra.AddInvoiceConfig` | asset_frontend/src/components/AddInvoiceForm.jsx:25-43 | only 'vendor' receives options; currency keeps its static six |
| `ConfigAlgebra.WrapperCreate` | asset_frontend/src/components/AddAssetForm.jsx:66-80 | created exactly on success; otherwise a truthy local error, the detail when there is one, and the error is rethrown |
| `Submission.ErrorText` | asset_frontend/src/components/DynamicForm.jsx:81 | the detail when truthy, else the fallback, which is truthy when non-empty |
| `Submission.ChooseRequest` | asset_frontend/src/components/SimpleWarrantyForm.jsx:90-94 | an update by the record's id exactly when editing, else a create, always with the payload |
| `SimpleForms.BlankState` | asset_frontend/src/components/SimpleAssetForm.jsx:12-26 | the listed keys, each at its default |
| `SimpleForms.EditFill` | asset_frontend/src/components/SimpleAssetForm.jsx:66-85 | each listed key takes the record's truthy value, else its `_id` value where that fallback applies, else its default |
| `SimpleForms.FillAt` | asset_frontend/src/components/SimpleAssetForm.jsx:71-74 | the fill at one key is the `||` chain of the value, the `_id` value and the default |
| `SimpleForms.Start` | asset_frontend/src/components/SimpleWarrantyForm.jsx:40-51 | the blank state unless editing with a record; then exactly the listed keys, each holding the record's value, else its `_id` value where that fallback applies, else the default |
| `SimpleForms.AssetBlankShape` | asset_frontend/src/components/SimpleAssetForm.jsx:12-26 | the asset form starts with thirteen keys, all blank |
| `SimpleForms.AssetEditShape` | asset_frontend/src/components/SimpleAssetForm.jsx:66-85 | the edit fill writes the blank keys plus `notes`; category falls back to `category_id`, brand has no fallback |
| `SimpleForms.WarrantyShape` | asset_frontend/src/components/SimpleWarrantyForm.jsx:40-51 | six blank keys; the edit fill writes the same six, the asset falling back to `asset_id` |
| `SimpleForms.InvoiceShape` | asset_frontend/src/components/SimpleInvoiceForm.jsx:12-19 | six keys, currency 'USD', the rest blank |
| `SimpleForms.MaintenanceShape` | asset_frontend/src/components/SimpleMaintenanceForm.jsx:11-19 | seven keys with type 'preventive'; the edit fill defaults the type and falls back to `asset_id` |
| `SimpleForms.DepreciationShape` | asset_frontend/src/components/SimpleDepreciationForm.jsx:11-18 | six blank keys; the edit fill falls back from method to `method_id` |
| `SimpleForms.MaintenanceEditDropsRemarks` | asset_frontend/src/components/SimpleMaintenanceForm.jsx:50-58 | as written, the edit fill has no `remarks` key and a `description` key, so its keys differ from the form's |
| `SimpleForms.MaintenanceEditKeepsRemarks` | asset_frontend/src/components/SimpleMaintenanceForm.jsx:11-19 | the corrected fill writes the form's own keys and carries the record's remarks |
| `SimpleForms.DepreciationEditDropsNotes` | asset_frontend/src/components/SimpleDepreciationForm.jsx:45-53 | as written, the edit fill has no `notes` key and a `description` key |
| `SimpleForms.DepreciationEditKeepsNotes` | asset_frontend/src/components/SimpleDepreciationForm.jsx:11-18 | the corrected fill writes the form's own keys and carries the record's notes |
| `SimpleForms.SetField` | asset_frontend/src/components/SimpleAssetForm.jsx:87-93 | only the named key changes |
| `SimpleForms.OneSlot` | asset_frontend/src/components/SimpleWarrantyForm.jsx:81-88 | one hand-written attachment block builds the generic form's payload |
| `SimpleForms.TwoSlots` | asset_frontend/src/components/SimpleAssetForm.jsx:169-184 | two consecutive attachment blocks build the generic form's payload |
| `SimpleForms.AssetPayload` | asset_frontend/src/components/SimpleAssetForm.jsx:166-184 | the values plus the receipt's and manual's four entries, each only when chosen |
| `SimpleForms.WarrantyPayload` | asset_frontend/src/components/SimpleWarrantyForm.jsx:78-88 | the values plus the document's four entries when one is chosen |
| `SimpleForms.InvoicePayload` | asset_frontend/src/components/SimpleInvoiceForm.jsx:64-74 | the values plus the invoice file's four entries when one is chosen |
| `SimpleForms.WarrantyDocumentKeys` | asset_frontend/src/components/SimpleWarrantyForm.jsx:81-88 | without a document the payload is the values; with one it gains exactly four keys |
| `SimpleForms.SubmitRecord` | asset_frontend/src/components/SimpleWarrantyForm.jsx:73-99 | update by id exactly when editing with a record, else create; the error is empty on success, truthy on failure, the detail when there is one |
| `SimpleForms.WarrantyFallbacks` | asset_frontend/src/components/SimpleWarrantyForm.jsx:98 | without detail: "Failed to update warranty" when editing, "Failed to create warranty" otherwise |
| `SimpleForms.MaintenanceFallback` | asset_frontend/src/components/SimpleMaintenanceForm.jsx:84 | editing a maintenance record with no server detail shows "Failed to update maintenance record" |
| `SimpleForms.DepreciationFallback` | asset_frontend/src/components/SimpleDepreciationForm.jsx:79 | creating a depreciation record with no server detail shows "Failed to create depreciation record" |
| `SimpleForms.SubmitInvoice` | asset_frontend/src/components/SimpleInvoiceForm.jsx:59-80 | always a create of the invoice payload; the error is cleared on success, and is the detail or 'Failed to create invoice' on failure |
| `SimpleForms.MessagesDistinct` | asset_frontend/src/components/SimpleAssetForm.jsx:107-151 | the ten validation messages are pairwise different |
| `SimpleForms.ValidateAsset` | asset_frontend/src/components/SimpleAssetForm.jsx:107-151 | a message appears exactly when its check fails, and messages keep the checks' order |
| `SimpleForms.NonNumericCost` | asset_frontend/src/components/SimpleAssetForm.jsx:132-148 | a non-numeric cost draws only "must be a valid positive number" |
| `SimpleForms.BlankIsZero` | asset_frontend/src/components/SimpleAssetForm.jsx:132-134 | `Number('')` is 0 |
| `SimpleForms.NegativeIsTruthy` | asset_frontend/src/components/SimpleAssetForm.jsx:146 | a value reading as a negative number is truthy |
| `SimpleForms.NegativeCost` | asset_frontend/src/components/SimpleAssetForm.jsx:132-148 | a negative cost draws both cost messages |
| `SimpleForms.EndOfLifeNeedsBothDates` | asset_frontend/src/components/SimpleAssetForm.jsx:136-143 | the end-of-life rule is checked only when both dates are present |
| `SimpleForms.AssetFailureText` | asset_frontend/src/components/SimpleAssetForm.jsx:193-199 | "Failed to <verb> asset: " with detail, else message, else the exception's message; else the generic sentence |
| `SimpleForms.SubmitAsset` | asset_frontend/src/components/SimpleAssetForm.jsx:153-203 | any message blocks the request and shows the bulleted banner; otherwise the two-slot payload is created, or updated under the record's `asset_id`, and a failed request shows `AssetFailureText` of its detail, message and exception text |
| `SimpleForms.EditWithoutRecordCreates` | asset_frontend/src/components/SimpleAssetForm.jsx:186-197 | in edit mode without a record the request is a create, yet its failure reports that the update failed |
| `SimpleForms.BlankCodeBlocks` | asset_frontend/src/components/SimpleAssetForm.jsx:107-164 | a blank asset code is reported and never reaches the server |
| `SimpleForms.BlankAssetForm` | asset_frontend/src/components/SimpleAssetForm.jsx:12-26 | the blank form's code and purchase date are blank |
| `FileDisplay.FileIcon` | asset_frontend/src/components/FileDisplay.jsx:19-27 | the image icon exactly for image types; the pdf icon exactly for other files whose lower-cased name ends in ".pdf" |
| `FileDisplay.ImageBeatsPdfName` | asset_frontend/src/components/FileDisplay.jsx:19-27 | an image named scan.PDF still shows the image icon |
| `FileDisplay.PreviewUrl` | asset_frontend/src/components/FileDisplay.jsx:89-94 | a data URL exactly for image types |
| `FileDisplay.PreviewRoundTrip` | asset_frontend/src/components/FileDisplay.jsx:89-94 | the preview is the very data URL the form read, and the text after its first comma decodes back to the bytes |
| `FileDisplay.BlobTypeNeverBlank` | asset_frontend/src/components/FileDisplay.jsx:46 | the blob's type is never empty: a non-empty stored type is kept as it is, anything else becomes 'application/octet-stream', and applying the fallback twice changes nothing |
| `FileDisplay.BinaryString` | asset_frontend/src/components/FileDisplay.jsx:40 | one character per byte, its code the byte |
| `FileDisplay.CharCodesToBytes` | asset_frontend/src/components/FileDisplay.jsx:41-45 | one byte per character, its code modulo 256 |
| `FileDisplay.MakeBlob` | asset_frontend/src/components/FileDisplay.jsx:37-46 | a blob exactly when `atob`'s forgiving decoding accepts the text, holding the decoded bytes and the fallback type |
| `FileDisplay.StoredFileBlob` | asset_frontend/src/components/FileDisplay.jsx:65-71 | the blob of text the server encoded holds exactly the stored bytes |
| `Base64.StrictIsForgiving` | asset_frontend/src/components/FileDisplay.jsx:40 | `atob` decodes every text the strict decoder accepts to the same bytes |
| `Base64.ForgivingRoundTrip` | asset_frontend/src/components/FileDisplay.jsx:65 | `atob` of the server's encoding of any byte string gives the bytes back |
| `Base64.SpacesIgnored` | asset_frontend/src/components/FileDisplay.jsx:40 | ASCII white space anywhere in the text does not change what `atob` decodes |
| `Base64.ForgivingAcceptsMore` | asset_frontend/src/components/FileDisplay.jsx:40 | unpadded "YQ" is refused by the strict decoder and decoded to the byte 97 by `atob` |
| `Serializers.DataRead` | asset_backend/asset_backend_app/serializers.py:52-60 | none exactly when nothing or no bytes are stored; otherwise non-empty text that decodes to the stored bytes |
| `Serializers.ReadField` | asset_backend/asset_backend_app/serializers.py:152-155 | null, or non-empty text decoding to the stored bytes |
| `Serializers.DecodeField` | asset_backend/asset_backend_app/serializers.py:64-66 | fails exactly on undecodable text; otherwise only that key changes, to the decoded bytes when the guard holds |
| `Serializers.DecodeAll` | asset_backend/asset_backend_app/serializers.py:62-72 | succeeds exactly when every listed key is decodable; then exactly the listed keys are converted |
| `Serializers.PrepareWrite` | asset_backend/asset_backend_app/serializers.py:62-84 | create and update succeed exactly when every file key is decodable, and leave every other key alone |
| `Serializers.BlankUploadKept` | asset_backend/asset_backend_app/serializers.py:43-44 | an empty upload is never decoded: the write's preparation succeeds and keeps the empty text |
| `Serializers.NonStringKept` | asset_backend/asset_backend_app/serializers.py:65 | the defensive `isinstance(value, str)` test: a value that is not a string passes through unchanged (the `CharField`s only ever validate to strings) |
| `Serializers.WriteThenRead` | asset_backend/asset_backend_app/serializers.py:52-66 | writing the encoding of non-empty bytes stores them, and reading back yields the same text |
| `Serializers.EmptyWriteReadsNull` | asset_backend/asset_backend_app/serializers.py:52-55 | writing the encoding of no bytes reads back as null |
| `Serializers.ListRow` | asset_backend/asset_backend_app/serializers.py:87-99 | the list row is the asset restricted to the listed fields |
| `Serializers.ListFieldCount` | asset_backend/asset_backend_app/serializers.py:95-99 | the list exposes eleven distinct fields |
| `Serializers.ListRowHidesFiles` | asset_backend/asset_backend_app/serializers.py:95-99 | no list row carries file data, its read form, or a raw category, location, vendor or status id |
| `Cascades.RemoveAssetsSound` | asset_backend/asset_backend_app/models.py:210 | removing assets with their dependents keeps column checks, keys and child links, and removes exactly those ids |
| `Cascades.RemoveAssetsLinks` | asset_backend/asset_backend_app/models.py:152-153 | nothing left refers to a removed asset |
| `Cascades.Detached` | asset_backend/asset_backend_app/models.py:91-96 | no surviving asset points at the deleted parent |
| `Cascades.OthersSurvive` | asset_backend/asset_backend_app/models.py:91-96 | every asset with another parent survives |
| `Cascades.DeleteAsset` | asset_backend/asset_backend_app/models.py:91-96 | deleting an asset leaves categories, statuses, locations, vendors, invoices and methods as they were: the foreign keys point from the asset to them |
| `Cascades.DeleteAssetValid` | asset_backend/asset_backend_app/models.py:268 | deleting an asset, with its end-of-life record and other dependents, keeps the database valid and removes exactly its id |
| `Cascades.DeleteAssetCascades` | asset_backend/asset_backend_app/models.py:168 | exactly the asset's warranties go with it, and likewise its maintenance records (line 238) |
| `Cascades.DeleteCategoryValid` | asset_backend/asset_backend_app/models.py:91 | deleting a category with its assets keeps the database valid; exactly its assets go |
| `Cascades.DeleteLocationValid` | asset_backend/asset_backend_app/models.py:92 | the same for a location |
| `Cascades.DeleteVendorValid` | asset_backend/asset_backend_app/models.py:93 | the same for a vendor, whose invoices go as well |
| `Cascades.DeleteStatusValid` | asset_backend/asset_backend_app/models.py:96 | the same for a status |
| `Cascades.DropVendorInvoicesSound` | asset_backend/asset_backend_app/models.py:128 | a vendor's invoices and their links go with it, and the rest stays consistent |
| `Ordering.SortDesc` | asset_backend/asset_backend_app/models.py:115-118 | an ordering by a descending key is a sorted permutation |
| `Ordering.AssetOrder` | asset_backend/asset_backend_app/models.py:118 | assets newest first, a permutation of the table |
| `Ordering.WarrantyOrder` | asset_backend/asset_backend_app/models.py:184 | warranties by descending end date, a permutation of the table |
| `Ordering.TakeIsLargest` | asset_frontend/src/pages/Dashboard.jsx:72 | the first n rows of a descending list have the largest keys |
| `Views.PyIntNatToString` | asset_backend/asset_backend_app/views.py:115 | Python's `int` reads the decimal text of every natural number back |
| `Views.SpacesDiffer` | asset_backend/asset_backend_app/views.py:115 | Python's `int` skips U+0085 and U+001F but not U+FEFF, which JavaScript's `trim` treats the other way round; digits are white space to neither |
| `Views.PyIntNegative` | asset_backend/asset_backend_app/views.py:115 | `int` reads a minus sign and decimal digits as the negated value |
| `Views.Search` | asset_backend/asset_backend_app/views.py:53-68 | every asset for an empty q; else exactly the assets one of whose five fields contains q ignoring case, each as often as in the table |
| `Views.SearchOrder` | asset_backend/asset_backend_app/views.py:53-68 | the answer keeps the table's order: the search of a concatenation is the parts' searches in turn |
| `Views.SearchIgnoresCase` | asset_backend/asset_backend_app/views.py:57-63 | searching for q and for its lower-case form finds the same assets |
| `Views.NullFieldsNeverMatch` | asset_backend/asset_backend_app/views.py:60-62 | an asset without serial, model number or brand is found only through its name or code |
| `Views.ByRef` | asset_backend/asset_backend_app/views.py:70-95 | 400 naming the parameter exactly when it is missing or empty; a server error for non-integer text; else exactly the rows with that id, each as often as in the table (also `by_asset`, views.py:140-147) |
| `Views.ByRefOrder` | asset_backend/asset_backend_app/views.py:70-95 | the answer keeps the table's order: the answer for a concatenation is the parts' answers in turn, and an error does not depend on the rows |
| `Views.ByDepartment` | asset_backend/asset_backend_app/views.py:79-86 | 400 exactly when the parameter is missing or empty; otherwise never rows, since assets have no department |
| `Views.ByStatusRoundTrip` | asset_backend/asset_backend_app/views.py:70-76 | asking by the text of a status id returns exactly the assets with that status |
| `Views.ByStatusMissing` | asset_backend/asset_backend_app/views.py:77 | without the parameter the answer is 400 "status_id parameter required" |
| `Views.ExpiringSoon` | asset_backend/asset_backend_app/views.py:112-123 | never a 400; exactly the warranties ending between today and today plus days, both included, each as often as in the table, days defaulting to 30; a server error exactly when days is not an integer, exceeds `timedelta`'s 999999999 days, or leads outside the dates 0001-01-01 to 9999-12-31 |
| `Views.ExpiringSoonOrder` | asset_backend/asset_backend_app/views.py:118-121 | the answer keeps the table's order: the answer for a concatenation is the parts' answers in turn |
| `Views.ExpiringLatestFirst` | asset_backend/asset_backend_app/models.py:183 | read in the table's `-end_date` order, the answer lists the latest-ending warranties first |
| `Views.NegativeDaysEmpty` | asset_backend/asset_backend_app/views.py:115-121 | a negative horizon selects nothing, unless the date it leads to is out of range, which is a server error |
| `Views.FarHorizonFails` | asset_backend/asset_backend_app/views.py:116 | a horizon past 9999-12-31 is a server error |
| `Views.ActiveVendors` | asset_backend/asset_backend_app/views.py:37-41 | exactly the active vendors |
| `Views.ActiveVendorsOrder` | asset_backend/asset_backend_app/views.py:39 | the filter distributes over concatenation, so the default order is kept |
| `Views.SerializerFor` | asset_backend/asset_backend_app/views.py:48-51 | the list serializer exactly for the list action |
| `Seed.NextId` | asset_backend/asset_backend_app/models.py:8 | a positive id above every id in use |
| `Seed.GetOrCreate` | asset_backend/asset_backend_app/management/commands/seed_data.py:29-32 | raises exactly when two or more rows have the name; one match keeps the table; none appends a new row under a fresh id |
| `Seed.CountUnique` | asset_backend/asset_backend_app/models.py:9 | in a table with unique names a name matches at most one row |
| `Seed.SeedTable` | asset_backend/asset_backend_app/management/commands/seed_data.py:28-34 | a successful loop only appends rows; a failure is MultipleObjectsReturned |
| `Seed.SeedTableProvides` | asset_backend/asset_backend_app/management/commands/seed_data.py:28-34 | after the loop every listed name is in exactly one row |
| `Seed.SeedTableNoop` | asset_backend/asset_backend_app/management/commands/seed_data.py:28-34 | with every name present once, the loop changes nothing, so existing rows keep their fields |
| `Seed.SeedTableTwice` | asset_backend/asset_backend_app/management/commands/seed_data.py:28-34 | a second run of the loop creates nothing |
| `Seed.SeedTableIdsUnique` | asset_backend/asset_backend_app/management/commands/seed_data.py:28-34 | new rows get fresh ids |
| `Seed.SeedTableNamesUnique` | asset_backend/asset_backend_app/management/commands/seed_data.py:28-34 | unique names stay unique and the loop cannot fail |
| `Seed.SeedTableDuplicateFails` | asset_backend/asset_backend_app/management/commands/seed_data.py:29-32 | a listed name already held by two rows makes the loop fail |
| `Seed.SeedTableAllOk` | asset_backend/asset_backend_app/management/commands/seed_data.py:28-34 | rows that pass a check still pass it, and so do the new ones |
| `Seed.SeedTableKeysGrow` | asset_backend/asset_backend_app/management/commands/seed_data.py:28-34 | the ids in use only grow |
| `Seed.SeedDb` | asset_backend/asset_backend_app/management/commands/seed_data.py:11-123 | the five loops in order: on success only the seeded tables grow, by appending; any failure is MultipleObjectsReturned |
| `Seed.SeedDbProvides` | asset_backend/asset_backend_app/management/commands/seed_data.py:15-119 | after a run every seeded name is in exactly one row of its table |
| `Seed.SeedDbTwice` | asset_backend/asset_backend_app/management/commands/seed_data.py:11-123 | the command is idempotent |
| `Seed.SeedDbSucceeds` | asset_backend/asset_backend_app/management/commands/seed_data.py:56-102 | with unique keys and unique location and vendor names the command cannot raise |
| `Seed.SeedDbDuplicateLocation` | asset_backend/asset_backend_app/management/commands/seed_data.py:63-72 | two locations sharing a seeded name make the command raise |
| `Seed.SeedDbRowsOk` | asset_backend/asset_backend_app/management/commands/seed_data.py:15-52 | the seeded rows pass the column checks |
| `Seed.SeededRowsOk` | asset_backend/asset_backend_app/models.py:9-26 | every seeded category and status name fits its column |
| `Seed.SeedDbKeys` | asset_backend/asset_backend_app/management/commands/seed_data.py:11-123 | seeding keeps every key unique |
| `Seed.SeedDbLinked` | asset_backend/asset_backend_app/management/commands/seed_data.py:11-123 | seeding keeps every reference resolvable |
| `Seed.SeedDbValid` | asset_backend/asset_backend_app/management/commands/seed_data.py:11-123 | seeding a valid database leaves it valid |
| `Seed.SeededCategoryExtensions` | asset_backend/asset_backend_app/management/commands/seed_data.py:15-26 | exactly the first four seeded categories have extension fields, and every extended label is seeded |
| `WarrantiesPage.CeilDiv` | asset_frontend/src/pages/Warranties.jsx:68 | `Math.ceil` of a quotient: the least q with a <= q*b |
| `WarrantiesPage.ExpiringWindow` | asset_frontend/src/pages/Warranties.jsx:65-70 | the flag covers the ends from just under a day ago to thirty days ahead |
| `WarrantiesPage.JustExpiredStillFlagged` | asset_frontend/src/pages/Warranties.jsx:68-69 | an end less than a day past is flagged under an Expired badge |
| `WarrantiesPage.DaysLeftMeansActive` | asset_frontend/src/pages/Warranties.jsx:127-128 | a day count of at least one means the badge reads Active |
| `WarrantiesPage.DaysUntilMidnight` | asset_frontend/src/pages/Warranties.jsx:65-70 | for a date-only end the count is the difference of day numbers |
| `WarrantiesPage.FlagMatchesServer` | asset_frontend/src/pages/Warranties.jsx:65-70 | the page's flag agrees with the server's 30-day window |
| `WarrantiesPage.EndsTodayShownExpired` | asset_frontend/src/pages/Warranties.jsx:127-128 | a warranty ending today is expiring for both, yet badged Expired |
| `WarrantiesPage.DocumentShownIffStored` | asset_frontend/src/pages/Warranties.jsx:132-142 | the document cell shows a file exactly when non-empty bytes are stored |
| `DashboardPage.TotalCostAppend` | asset_frontend/src/pages/Dashboard.jsx:61 | the total is additive over any split of the list |
| `DashboardPage.TotalCostNonNegative` | asset_frontend/src/pages/Dashboard.jsx:61 | non-negative costs give a non-negative total |
| `DashboardPage.ComputeStats` | asset_frontend/src/pages/Dashboard.jsx:58-69 | the totals, including the cost sum over every asset; the active and under-repair counts are the filtered list sizes and together at most the total |
| `DashboardPage.Load` | asset_frontend/src/pages/Dashboard.jsx:46-78 | with both answers, the stats and each panel's first min(5, n) rows in server order; a failure of either request leaves zero stats and empty panels, and the page shows that initial state exactly when a request failed or both lists were empty |
| `DashboardPage.ExpiringCountIsComplete` | asset_frontend/src/pages/Dashboard.jsx:67-73 | with more than five expiring warranties the card counts more than the panel lists |
| `DashboardPage.RecentAreNewest` | asset_frontend/src/pages/Dashboard.jsx:72 | in the default order the recent panel holds the newest assets |
| `DashboardPage.ThirtyIsTheDefault` | asset_frontend/src/pages/Dashboard.jsx:54 | asking for 30 days equals asking with no parameter |
| `AssetsPage.SearchRequest` | asset_frontend/src/pages/Assets.jsx:93-107 | a blank query fetches everything; any other is put into the URL as typed, without encoding (api.js line 49) |
| `AssetsPage.FilterRequest` | asset_frontend/src/pages/Assets.jsx:109-121 | status first, then category, else everything |
| `AssetsPage.StatusBeatsCategory` | asset_frontend/src/pages/Assets.jsx:113-118 | with a status chosen the category is ignored |
| `AssetsPage.SearchShows` | asset_frontend/src/pages/Assets.jsx:93-107 | a blank search shows every asset; any other shows exactly the assets matching the text the view receives, or every asset when that text is empty |
| `AssetsPage.PlainSearchShows` | asset_frontend/src/services/api.js:49 | a query with no '#', '&', '+', '%', tab or line break, and no trailing space or control, shows exactly the assets matching it as typed |
| `AssetsPage.HashSearchShowsAll` | asset_frontend/src/services/api.js:49 | searching "#1" shows every asset, since the text becomes the URL's fragment |
| `QueryString.LastValue` | asset_frontend/src/services/api.js:49 | the value of the last pair carrying the name, none exactly when no pair carries it |
| `QueryString.PlainArrives` | asset_frontend/src/services/api.js:49 | text free of '#', '&', '+', '%', tabs and line breaks, with no trailing space or control, reaches the view unchanged |
| `QueryString.AmpersandCuts` | asset_frontend/src/services/api.js:49 | after such plain text, an '&' ends the searched text; what follows becomes a pair of its own |
| `QueryString.HashCuts` | asset_frontend/src/services/api.js:49 | after such plain text, a '#' ends the searched text; what follows is never sent |
| `QueryString.PlusArrivesAsSpace` | asset_frontend/src/services/api.js:49 | in a text without '#', '&', '%', tabs or line breaks, every '+' arrives as a space |
| `QueryString.AmpersandExample` | asset_frontend/src/services/api.js:49 | "R&D" is searched as "R" |
| `QueryString.HashExample` | asset_frontend/src/services/api.js:49 | "#1" is searched as the empty text |
| `QueryString.PlusExample` | asset_frontend/src/services/api.js:49 | "C++" is searched as "C" and two spaces |
| `AssetsPage.StatusFilterShows` | asset_frontend/src/pages/Assets.jsx:112-115 | filtering by a status id's text shows exactly the assets with that status |
| `AssetsPage.PostFilter` | asset_frontend/src/pages/Assets.jsx:125-130 | a row is kept exactly when it passes the set location and vendor filters, as often as it came |
| `AssetsPage.PostFilterOrder` | asset_frontend/src/pages/Assets.jsx:125-130 | the server's order is kept: filtering a concatenation filters each part in turn |
| `AssetsPage.NoIdFilterKeepsAll` | asset_frontend/src/pages/Assets.jsx:125-130 | with neither filter set the answer is shown unchanged |
| `AssetsPage.LocationFilterEmptiesListRows` | asset_frontend/src/pages/Assets.jsx:125-130 | list rows carry no location id, so a location filter empties the list |
| `AssetsPage.HandleFilter` | asset_frontend/src/pages/Assets.jsx:109-136 | an answer replaces the list with its post-filtered rows, in the server's order; a failure keeps the list |
| `AssetsPage.ClearFilters` | asset_frontend/src/pages/Assets.jsx:138-148 | the cleared state asks for every asset, through either button |
| `AssetsPage.ClearFiltersClears` | asset_frontend/src/pages/Assets.jsx:138-148 | clearing empties all four filters and the query and asks for every asset |
| `AssetsPage.ClearedShowsAll` | asset_frontend/src/pages/Assets.jsx:138-148 | after clearing the full answer is shown unchanged |
| `AssetsPage.Selected` | asset_frontend/src/pages/Assets.jsx:247 | choosing "all" clears the filter |
| `AssetsPage.Shown` | asset_frontend/src/pages/Assets.jsx:246 | an empty filter shows as "all" |
| `AssetsPage.SelectRoundTrip` | asset_frontend/src/pages/Assets.jsx:246-247 | choosing an entry and reading the select gives the entry back, and the reverse |
| `AssetsPage.StatusVariant` | asset_frontend/src/pages/Assets.jsx:182-195 | each variant stated both ways: default for Active, secondary for Under Repair, destructive for Scrapped, unstyled exactly for a name inherited from `Object.prototype`, outline for every other name |
| `AssetsPage.SeededStatusesNeverDestructive` | asset_frontend/src/pages/Assets.jsx:182-195 | no seeded status is Scrapped, so none is badged destructive |
| `AssetDetailPage.ForAsset` | asset_frontend/src/pages/AssetDetail.jsx:61-71 | exactly the rows whose asset equals `parseInt(id)`, each as often as fetched |
| `AssetDetailPage.ForAssetOrder` | asset_frontend/src/pages/AssetDetail.jsx:61-71 | the fetched order is kept: filtering a concatenation filters each part in turn |
| `AssetDetailPage.ForAssetNumeral` | asset_frontend/src/pages/AssetDetail.jsx:61-71 | for an id's decimal text, exactly the rows of that asset |
| `AssetDetailPage.ForAssetNotANumber` | asset_frontend/src/pages/AssetDetail.jsx:61-71 | an id that does not start with a digit matches nothing |
| `AssetDetailPage.TrailingTextSplitsClientAndServer` | asset_frontend/src/pages/AssetDetail.jsx:47-83 | for "12x" `parseInt` reads 12, but the by-asset request is a server error, so the joint load fails and the page shows "Asset not found" |
| `AssetDetailPage.Capitalize` | asset_frontend/src/pages/AssetDetail.jsx:277 | the first character upper-cased and the rest unchanged |
| `AssetDetailPage.CapitalizeKeepsLetters` | asset_frontend/src/pages/AssetDetail.jsx:277 | capitalizing changes the first letter's case only |
| `AssetDetailPage.CapitalizedTypes` | asset_frontend/src/pages/AssetDetail.jsx:273-277 | the four accepted maintenance types as displayed |
| `AssetDetailPage.ShowPanels` | asset_frontend/src/pages/AssetDetail.jsx:273 | all of the asset's warranties; the first min(5, n) maintenances in order; the first min(3, m) of the asset's m depreciations in order (line 348) |
| `AssetDetailPage.PanelsComplete` | asset_frontend/src/pages/AssetDetail.jsx:273 | with at most five maintenances, or at most three depreciations of the asset (line 348), the panel shows all of them, in the filtered order |
| `AssetDetailPage.LoadDetail` | asset_frontend/src/pages/AssetDetail.jsx:42-83 | without an id the spinner stays; with one, the detail view exactly when all four requests succeed, showing the fetched asset and the panels `ShowPanels` cuts from the three lists; otherwise "Asset not found" (line 117) |
| `AssetDetailPage.StatusTone` | asset_frontend/src/pages/AssetDetail.jsx:85-100 | each colour stated both ways: green for Active, yellow for Under Repair, red for Scrapped, unstyled exactly for a name inherited from `Object.prototype`, gray for every other name |
| `AssetDetailPage.BadgesAgree` | asset_frontend/src/pages/AssetDetail.jsx:85-100 | the detail and list pages style every status name alike, tone for variant |
| `AssetDetailPage.PrototypeStatusesUnstyled` | asset_frontend/src/pages/AssetDetail.jsx:93-95 | statuses named "toString" and "__proto__" get no colour and no known variant; "Retired" stays gray and outline |
| `Choices.OfferedTypesRejected` | asset_frontend/src/config/formConfigs.js:252-259 | as written, "cleaning" and "inspection" are offered, yet a record with either fails the table's check |
| `Choices.AcceptedTypeOptions` | asset_backend/asset_backend_app/models.py:230-235 | the corrected options are offered ones whose value is an accepted type, and every accepted type is offered |
| `Choices.AcceptedTypesSave` | asset_backend/asset_backend_app/models.py:230-242 | with the corrected options every offered type passes the table's check |

## Left out

- The HTTP client (`api.js`), its bearer token and 401 redirect: requests are abstract outcomes. Only the search text's passage through the URL is modelled (`QueryString`). The other query parameters are taken as already decoded: the ids the select boxes send are numerals, and the route id `getByAsset` interpolates is passed to `Views.ByAsset` as it is.
- React rendering, hooks, effect scheduling, `FileReader` asynchrony and its error path, drag highlighting and icons: only state transitions and the values they produce are modelled. `Promise.all` is modelled only by its outcome: the detail page's load succeeds exactly when all four requests do.
- Floating point: money is exact `real` and `formatIndianNumber` and `formatFileSize` are not modelled.
- Date parsing, formatting and time zones: dates are integer days or milliseconds, with midnight UTC for a date-only text.
- Python's lenient `b64decode` of malformed input on the server: the server's decoder is the strict one of section 4 of RFC 4648, and it accepts non-zero padding bits. The browser's `atob` is modelled by its own forgiving decoding.
- `Views.PyInt`: Python's `int()` also accepts underscores between digits and non-ASCII decimal digits; the model accepts only ASCII digits.
- `AssetsPage.SearchShows`: percent-escapes typed into the search box are not decoded, where Django decodes them ("%41" is searched as "A"); a text holding '%' is therefore modelled as arriving with the '%' kept, and the lemmas that say what text arrives (`QueryString.PlainArrives`, `AmpersandCuts`, `HashCuts`, `PlusArrivesAsSpace`, `AssetsPage.PlainSearchShows`) are stated only for texts without '%'.
- `ConfigAlgebra.SmartAssetFields`: the `TypeError` keeps no message, since its wording depends on the JavaScript engine.
- `parseInt` with hexadecimal prefixes and `Number` with exponents, `Infinity` or hexadecimal text are not modelled; only decimal numerals are.
- Case folding is ASCII only.
- Field descriptors keep no `helpText`, `icon` or `rows`, which affect only rendering.
- The simple vendor, location and category forms, the add location and category forms, and the categories, locations, vendors, invoices, maintenance and depreciation pages: they only copy values and call the API.
- Routing, URL configuration and the admin site.
- The name-based default orderings of categories, statuses, locations, vendors and methods, and the date orderings of invoices, depreciations, maintenances and end-of-life records.
- The seed's descriptions, contact persons, e-mail addresses, cities and states: only names, ids, the location's address and country and the vendor's active flag are kept.
- `Seed.SeedDb`: rows written by earlier loops before a `MultipleObjectsReturned` are not kept, since the failed run returns no database.
- `Seed.NextId`: the id sequence is modelled as one past the largest id in use, not as a database sequence that never reuses ids.
- `SimpleForms.ValidateAsset`: a code or name that is present but not a string is treated as non-blank, where the source's optional-chained `trim` would throw.
- `SimpleForms.AssetFailureText`: the three message sources are plain strings, empty meaning absent, rather than arbitrary falsy values.
- `FileUpload.HandleFiles`: the widget's state does not hold the parent's value; what is handed up is listed instead.
- `Views.Search`: rows are returned as assets rather than serialized list rows; `Serializers.ListRow` states what a list row holds.
- `Views.ByRef`: rows are returned as model rows rather than serialized list rows.
- `DashboardPage.ComputeStats`: the cost of a row is read with `Number` rather than `parseFloat`, so text with trailing characters counts as 0 instead of its leading number.
- The Django validation of choices and field lengths on save is modelled as predicates (`Models.MaintenanceOk` and the like), not as error responses.
- The end-of-life, depreciation-method and invoice-mapping deletes beyond the cascades from assets, categories, locations, statuses and vendors are not modelled.

## Findings

| source | as written | input that shows it | evidently intended | confidence | as-written member | corrected member |
|---|---|---|---|---|---|---|
| asset_frontend/src/components/SimpleMaintenanceForm.jsx:50-58 | the edit fill writes `description` and no `remarks` | editing a record whose remarks are "filter replaced": the box shows '' and the payload carries no remarks | fill `remarks` from the record, matching the initial state | high, not executed | `SimpleForms.MaintenanceEditDropsRemarks` | `SimpleForms.MaintenanceEditKeepsRemarks` |
| asset_frontend/src/components/SimpleDepreciationForm.jsx:45-53 | the edit fill writes `description` and no `notes` | editing a record whose notes are "year-end": the box shows '' and the payload carries no notes | fill `notes` from the record, matching the initial state | high, not executed | `SimpleForms.DepreciationEditDropsNotes` | `SimpleForms.DepreciationEditKeepsNotes` |
| asset_frontend/src/config/formConfigs.js:252-259 | both maintenance forms offer six types, including cleaning and inspection; the simple form's list at SimpleMaintenanceForm.jsx:25-32 is the same | saving a maintenance record of type "cleaning": the table's choices (models.py:230-235) reject it | offer only the four types the table accepts | high, not executed | `Choices.OfferedTypesRejected` | `Choices.AcceptedTypeOptions` |
