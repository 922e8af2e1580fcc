# Olog service core in Dafny

This project models the request rules of the Phoebus Olog logbook service and of its Python client, and proves what those rules promise. It covers how requests are validated, parsed, merged and authorized. Persistence, HTTP transport and the security wiring are outside the model.

One Dafny module stands for each source file of the core:

- `SearchUtil` (search_util.dfy) models `LogSearchUtil`: the quote-aware search-term tokenizer and the normalisation of search parameters. The parameters are keys, time ranges, paging, sort order, level, property and attachment filters.
- The `TimeParser` family (time_parser*.dfy) models `TimeParser`. `parseTemporalAmount` runs the matcher loop that fills the unit map and returns a Period or Duration. `format` writes an amount back as text. The regular expression is a small scanner over positions. Fractional quantities are exact rationals carried into the next finer unit. The other modules prove the round trips and the worked examples.
- `LogEntity` (log_entity.dfy) models the log entry and its `LogBuilder`. The builder is a class whose setters update its fields; `build` and `equals` are included.
- `LogEntryGroupHelper` (group_helper.dfy) models the group-property lookup and the creation of a new group property.
- `PropertyEntity`, `LogTemplateEntity` and `InstantJson` model `Property`, `LogTemplate` and the epoch-millisecond serializer and deserializer.
- `DefaultPreprocessor` models the default preprocessor.
- `Entities` holds the plain records: logbooks, tags, levels, attributes, attachments and events.
- `Stores` models the repositories. Each one is a map from name to record with a soft delete: a deleted record stays stored, marked Inactive, and drops out of the active list.
- `Logbooks`, `Tags`, `Levels`, `Properties` and `LogTemplates` model the resource classes of those names. Each is a class over its store, with validation, upsert-by-name, batch writes that validate first, delete and find.
- `Logs` (log_resource.dfy) models `LogResource`: create, the multipart create with attachments, update with its merge, reply, attachment download and grouping of entries.
- `LogEntryValidator` models both validators: the Spring validator that counts rejections and the entity validator `isValid`.
- `Authorization` models `AuthorizationService`: the configured groups and `isAuthorizedRole`.
- `Sessions` and `Security` model the session store and `SessionFilter`. That includes the Basic-header decoding of section 2 of RFC 7617. `Base64` models the basic Base64 alphabet and padding of section 4 of RFC 4648.
- `Authentication` models `AuthenticationResource`: login, logout, the current user and the session cookie.
- `RssFeed` models `RssFeedUtil`.
- `OlogClient` models the Python client `olog_client.py`: URL building, parameter aliasing and optional parameters, the read-modify-write update, multipart bodies and headers, and the file loops.
- `JavaText` and `Wrappers` hold shared definitions:
  - Java's string operations: ASCII case mapping, trim, split, integer text and `String.hashCode`;
  - the `Option` and `Result` types.

Java `null` is an `Option`. An exception or an HTTP error status is an error value of `Result`. A request that never gets an answer, because it runs a loop that never ends, is the error value `Hangs`. Clocks, generated ids and UUIDs, the authentication manager, file existence, MIME guesses and the iteration order of hash sets all come from outside the code. Each of them is a parameter of the member that uses it.

## Model

| member | source | states |
|---|---|---|
| DefaultPreprocessor.Process | src/main/java/org/phoebus/olog/entity/preprocess/DefaultPreprocessor.java:35-39 | the processed entry's source is its description and nothing else changes |
| DefaultPreprocessor.ProcessIdempotent | src/main/java/org/phoebus/olog/entity/preprocess/DefaultPreprocessor.java:36-39 | processing an already processed entry changes nothing |
| DefaultPreprocessor.ProcessKeepsEquality | src/main/java/org/phoebus/olog/entity/preprocess/DefaultPreprocessor.java:36-39 | the processed entry is Log.equals-equal to the posted one, in both directions |
| Entities.Add | src/main/java/org/phoebus/olog/entity/Log.java:494-497 | Set.add keeps the set when it holds a member equal to the new one and adds it otherwise, so the members stay pairwise unequal |
| Entities.AddAll | src/main/java/org/phoebus/olog/entity/Log.java:499-502 | Set.addAll keeps every old member and adds exactly the new ones with no equal member, so the members stay pairwise unequal |
| Entities.AddEachIsAddAll | src/main/java/org/phoebus/olog/entity/Log.java:499-502 | adding the members one at a time, in any iteration order, is addAll |
| Entities.DistinctKeysCount | src/main/java/org/phoebus/olog/entity/Tag.java:100-127 | a set of pairwise unequal members has as many equals keys as members |
| Entities.SetEqualsByKeys | src/main/java/org/phoebus/olog/entity/Log.java:586-645 | two sets are equal by AbstractSet.equals exactly when they hold the same equals keys |
| LogEntryGroupHelper.FindGroupProperty | src/main/java/org/phoebus/olog/entity/LogEntryGroupHelper.java:38-47 | a found property is one of the entry's and is named "Log Entry Group"; none found means no property has that name; a NullPointerException only when some property has a null name, and never when all are named |
| LogEntryGroupHelper.NewGroupProperty | src/main/java/org/phoebus/olog/entity/LogEntryGroupHelper.java:53-56 | the new property is a group property with exactly one attribute, which is the one the id lookup returns |
| LogEntryGroupHelper.NewGroupPropertyId | src/main/java/org/phoebus/olog/entity/LogEntryGroupHelper.java:53-56 | the ids a new group property carries are exactly the UUID it was made from |
| LogEntryGroupHelper.NewGroupPropertiesDiffer | src/main/java/org/phoebus/olog/entity/LogEntryGroupHelper.java:53-56 | group properties made from different UUIDs are different groups by the id comparison |
| LogEntity.LogEquals | src/main/java/org/phoebus/olog/entity/Log.java:586-645 | equals fails only with a NullPointerException, and only when the receiver's level is null; with a level it always answers |
| LogEntity.LogEqualsIgnoresPresentation | src/main/java/org/phoebus/olog/entity/Log.java:586-645 | for a receiver with a level, equals holds exactly when the two entries differ at most in title, source and attachments, and their logbooks, tags and properties agree by Logbook.equals, Tag.equals and Property.equals |
| LogEntity.LogEqualsSymmetric | src/main/java/org/phoebus/olog/entity/Log.java:586-645 | equals is symmetric when both entries have a level |
| LogEntity.RetiredTagsKeepEquality | src/main/java/org/phoebus/olog/entity/Tag.java:108-127 | retiring every tag keeps the tags pairwise unequal and the entry equal to the original, since Tag.equals compares names only |
| LogEntity.AppendLine | src/main/java/org/phoebus/olog/entity/Log.java:451-457 | appending to empty text gives the addition; to non-empty text gives the text, one line break, then the addition |
| LogEntity.AppendLinesJoins | src/main/java/org/phoebus/olog/entity/Log.java:451-457 | appending non-empty lines one by one to an empty builder gives the lines joined by single line breaks, with no leading break |
| LogEntity.LogBuilder.constructor | src/main/java/org/phoebus/olog/entity/Log.java:346-367 | a new builder has level "Info", state Active, empty texts, empty sets, an empty event list and no id, owner or dates |
| LogEntity.LogBuilder.FromSource | src/main/java/org/phoebus/olog/entity/Log.java:398-400 | a null source is a NullPointerException; otherwise a fresh builder holding that source and the defaults otherwise |
| LogEntity.LogBuilder.FromLog | src/main/java/org/phoebus/olog/entity/Log.java:370-396 | copying succeeds exactly when description and title are non-null (NullPointerException otherwise); the copy describes the entry with a null source turned into "" |
| LogEntity.LogBuilder.SetOwner | src/main/java/org/phoebus/olog/entity/Log.java:414-420 | the owner becomes the given one, or "" for null; nothing else changes |
| LogEntity.LogBuilder.SetId | src/main/java/org/phoebus/olog/entity/Log.java:422-425 | only the id changes |
| LogEntity.LogBuilder.SetCreateDate | src/main/java/org/phoebus/olog/entity/Log.java:427-430 | only the creation date changes |
| LogEntity.LogBuilder.SetModifyDate | src/main/java/org/phoebus/olog/entity/Log.java:534-537 | only the modification date changes |
| LogEntity.LogBuilder.WithEvents | src/main/java/org/phoebus/olog/entity/Log.java:432-435 | only the event list changes |
| LogEntity.LogBuilder.SetDescription | src/main/java/org/phoebus/olog/entity/Log.java:437-442 | the description is replaced, and left as it was for null; nothing else changes |
| LogEntity.LogBuilder.SetTitle | src/main/java/org/phoebus/olog/entity/Log.java:444-449 | the title is replaced, and left as it was for null; nothing else changes |
| LogEntity.LogBuilder.SetSource | src/main/java/org/phoebus/olog/entity/Log.java:459-464 | the source is replaced, and left as it was for null; nothing else changes |
| LogEntity.LogBuilder.AppendDescription | src/main/java/org/phoebus/olog/entity/Log.java:451-457 | the description becomes AppendLine of the old one and the text ("null" for null); nothing else changes |
| LogEntity.LogBuilder.AppendSource | src/main/java/org/phoebus/olog/entity/Log.java:466-472 | the source becomes AppendLine of the old one and the text ("null" for null); nothing else changes |
| LogEntity.LogBuilder.SetLevel | src/main/java/org/phoebus/olog/entity/Log.java:474-477 | only the level changes |
| LogEntity.LogBuilder.WithLogbook | src/main/java/org/phoebus/olog/entity/Log.java:479-482 | Set.add of the logbook: it joins the set unless a member equal to it by Logbook.equals (name and owner) is already held, which then stays; nothing else changes |
| LogEntity.LogBuilder.WithLogbooks | src/main/java/org/phoebus/olog/entity/Log.java:484-487 | Set.addAll of the logbooks: every held member stays and each given one with no equal member joins; nothing else changes |
| LogEntity.LogBuilder.SetLogbooks | src/main/java/org/phoebus/olog/entity/Log.java:489-492 | the logbook set is replaced; nothing else changes |
| LogEntity.LogBuilder.WithTag | src/main/java/org/phoebus/olog/entity/Log.java:494-497 | Set.add of the tag: it joins the set unless a member equal to it by Tag.equals (name) is already held, which then stays; nothing else changes |
| LogEntity.LogBuilder.WithTags | src/main/java/org/phoebus/olog/entity/Log.java:499-502 | Set.addAll of the tags: every held member stays and each given one with no equal member joins; nothing else changes |
| LogEntity.LogBuilder.SetTags | src/main/java/org/phoebus/olog/entity/Log.java:504-507 | the tag set is replaced; nothing else changes |
| LogEntity.LogBuilder.WithProperty | src/main/java/org/phoebus/olog/entity/Log.java:509-512 | Set.add of the property: it joins the set unless a member equal to it by Property.equals (name and attributes) is already held, which then stays; nothing else changes |
| LogEntity.LogBuilder.WithProperties | src/main/java/org/phoebus/olog/entity/Log.java:514-517 | Set.addAll of the properties: every held member stays and each given one with no equal member joins; nothing else changes |
| LogEntity.LogBuilder.SetProperties | src/main/java/org/phoebus/olog/entity/Log.java:519-522 | the property set is replaced; nothing else changes |
| LogEntity.LogBuilder.WithAttachment | src/main/java/org/phoebus/olog/entity/Log.java:524-527 | the attachment is added to the set; nothing else changes |
| LogEntity.LogBuilder.SetAttachments | src/main/java/org/phoebus/olog/entity/Log.java:529-532 | the attachment set is replaced; nothing else changes |
| LogEntity.LogBuilder.Build | src/main/java/org/phoebus/olog/entity/Log.java:544-565 | the built entry carries every field of the builder, and its description, title and source are never null |
| LogEntity.CopyRebuildIsEqual | src/main/java/org/phoebus/olog/entity/Log.java:370-396 | copying an entry into a builder and building it again gives an entry equal to the original by equals |
| PropertyEntity.NewProperty | src/main/java/org/phoebus/olog/entity/Property.java:64-67 | the new property has the given name and attributes, no owner, and state Active |
| PropertyEntity.GetAttribute | src/main/java/org/phoebus/olog/entity/Property.java:128-134 | a null attribute set throws; otherwise the result holds exactly the attributes with the given name |
| PropertyEntity.AddAttributes | src/main/java/org/phoebus/olog/entity/Property.java:149-151 | a null attribute set throws; otherwise the attributes become the old ones together with the given ones, and name, owner and state are kept |
| PropertyEntity.AddAttribute | src/main/java/org/phoebus/olog/entity/Property.java:156-158 | adding one attribute is adding the one-element set |
| PropertyEntity.GetAttributeAfterAdd | src/main/java/org/phoebus/olog/entity/Property.java:128-158 | after a union, a lookup by name finds the old matches and the added attributes of that name |
| PropertyEntity.AddAttributesIdempotent | src/main/java/org/phoebus/olog/entity/Property.java:149-151 | adding the same attributes twice gives the same property as adding them once |
| PropertyEntity.PropertyEqualsIgnoresOwnerAndState | src/main/java/org/phoebus/olog/entity/Property.java:185-205 | two properties are equal exactly when they differ at most in owner and state |
| PropertyEntity.PropertyHashAgreesWithEquals | src/main/java/org/phoebus/olog/entity/Property.java:176-183 | equal properties have equal hash codes, whatever the hash of the attribute set is |
| PropertyEntity.ToLogger | src/main/java/org/phoebus/olog/entity/Property.java:165-174 | with a null attribute set the text is the name, possibly null; otherwise it starts with the name and ends with the attributes' text in parentheses |
| LogTemplateEntity.NewTemplate | src/main/java/org/phoebus/olog/entity/LogTemplate.java:36-65 | a new template has level "Info", empty logbook, tag and property sets, and null name, id, owner and title |
| LogTemplateEntity.TemplateEquals | src/main/java/org/phoebus/olog/entity/LogTemplate.java:160-166 | equals is false for anything but a template; a template argument with a null name throws; true needs both names non-null |
| LogTemplateEntity.TemplateHash | src/main/java/org/phoebus/olog/entity/LogTemplate.java:168-171 | hashing throws exactly for a null name; otherwise the hash is a 32-bit value |
| LogTemplateEntity.TemplateEqualsIsLowerCaseName | src/main/java/org/phoebus/olog/entity/LogTemplate.java:160-166 | between named templates, equals compares the lower-cased names |
| LogTemplateEntity.TemplateHashAgreesWithEquals | src/main/java/org/phoebus/olog/entity/LogTemplate.java:160-171 | equal templates have equal hash codes |
| LogTemplateEntity.TemplateEqualsSymmetric | src/main/java/org/phoebus/olog/entity/LogTemplate.java:160-166 | equals is symmetric between named templates |
| InstantJson.ToEpochMilli | src/main/java/org/phoebus/olog/entity/InstanceSerializer.java:29-32 | succeeds exactly when the instant rounded down to a whole millisecond fits a long, and then gives those milliseconds; otherwise an ArithmeticException |
| InstantJson.OfEpochMilli | src/main/java/org/phoebus/olog/entity/InstanceDeserializer.java:33 | the instant lies exactly the given number of milliseconds from the epoch |
| InstantJson.Serialize | src/main/java/org/phoebus/olog/entity/InstanceSerializer.java:29-32 | an instant is written exactly when toEpochMilli succeeds, and is written as one JSON integer |
| InstantJson.Deserialize | src/main/java/org/phoebus/olog/entity/InstanceDeserializer.java:29-34 | a read instant has no sub-millisecond part; text that is not a long is a NumberFormatException |
| InstantJson.TruncateToMillis | src/main/java/org/phoebus/olog/entity/InstanceSerializer.java:31 | the truncated instant keeps the seconds and loses less than one millisecond |
| InstantJson.OfEpochMilliOfParts | src/main/java/org/phoebus/olog/entity/InstanceDeserializer.java:33 | splitting the epoch milliseconds of an instant gives back its seconds and its nanoseconds truncated to milliseconds |
| InstantJson.DeserializeSerialize | src/main/java/org/phoebus/olog/entity/InstanceSerializer.java:29-32 | writing then reading an instant gives it back truncated to the millisecond |
| InstantJson.DeserializeSerializeMillis | src/main/java/org/phoebus/olog/entity/InstanceDeserializer.java:29-34 | an instant of whole milliseconds survives writing and reading unchanged |
| InstantJson.SerializeDeserialize | src/main/java/org/phoebus/olog/entity/InstanceDeserializer.java:29-34 | every long read as milliseconds is written back as the same text |
| InstantJson.DecimalTextRejected | src/main/java/org/phoebus/olog/entity/InstanceDeserializer.java:31-32 | text with a decimal point is rejected with a NumberFormatException |
| Stores.Names | src/main/java/org/phoebus/olog/LogbookRepository.java:95-98 | the names of a batch are the batch's keys, in order |
| Stores.SaveAllIsUnion | src/main/java/org/phoebus/olog/LogbookRepository.java:95-115 | saving a batch puts it on top of the old store: the result is the union with the batch winning |
| Stores.WrittenKeys | src/main/java/org/phoebus/olog/LogbookRepository.java:95-98 | a batch writes exactly its own names |
| Stores.SaveAllUnique | src/main/java/org/phoebus/olog/LogbookRepository.java:95-98 | a record whose name occurs once in the batch is what the store holds under that name afterwards |
| Stores.Retire | src/main/java/org/phoebus/olog/LogbookRepository.java:215-230 | a soft delete keeps every name, changes nothing but the named record, and replaces that one by its retired form |
| Stores.RetireAll | src/main/java/org/phoebus/olog/LogbookRepository.java:215-230 | soft deletes of several names keep every name and leave records not named untouched |
| Stores.RetiredThenSaved | src/main/java/org/phoebus/olog/LogbooksResource.java:96-104 | soft-deleting the names of a batch and then saving the batch leaves exactly the old store with the batch on top |
| Stores.RemoveAll | src/main/java/org/phoebus/olog/LevelRepository.java:203-210 | removing names leaves exactly the other names, with their records unchanged |
| Stores.RemovedThenSaved | src/main/java/org/phoebus/olog/LevelsResource.java:107-116 | removing the names of a batch and then saving it leaves the old store with the batch on top |
| Stores.ActiveNames | src/main/java/org/phoebus/olog/LogbookRepository.java:169-176 | the active names are exactly the names whose record is active |
| Stores.RetireHides | src/main/java/org/phoebus/olog/LogbookRepository.java:215-230 | a soft delete removes exactly that name from the active names |
| Logbooks.Keyed | src/main/java/org/phoebus/olog/LogbookRepository.java:95-98 | each logbook of the batch is keyed by its name, in order |
| Logbooks.ValidateLogbooks | src/main/java/org/phoebus/olog/LogbooksResource.java:134-157 | the batch passes exactly when every logbook has a non-null, non-empty name; otherwise 400 |
| Logbooks.LogbooksResource.constructor | src/main/java/org/phoebus/olog/LogbooksResource.java:46-47 | the resource starts with an empty logbook index |
| Logbooks.LogbooksResource.FindAll | src/main/java/org/phoebus/olog/LogbooksResource.java:49-52 | findAll lists exactly the stored logbooks that are active |
| Logbooks.LogbooksResource.FindByTitle | src/main/java/org/phoebus/olog/LogbooksResource.java:54-64 | the stored logbook of that name, active or not; 404 when there is none |
| Logbooks.LogbooksResource.CreateLogbook | src/main/java/org/phoebus/olog/LogbooksResource.java:66-85 | an invalid body is 400 with no write; otherwise the logbook under the path name is soft-deleted and the body saved under its own name and returned |
| Logbooks.LogbooksResource.UpdateLogbooks | src/main/java/org/phoebus/olog/LogbooksResource.java:87-105 | 400 with no write exactly when some logbook is invalid; otherwise the store becomes the old one with the batch on top, and the batch is returned |
| Logbooks.LogbooksResource.DeleteLogbook | src/main/java/org/phoebus/olog/LogbooksResource.java:107-121 | 404 when there is no such logbook; otherwise exactly that logbook is soft-deleted |
| Logbooks.KeyedWrittenValid | src/main/java/org/phoebus/olog/LogbooksResource.java:87-105 | a valid batch stores every logbook under its own name |
| Logbooks.DeletedStillFoundInactive | src/main/java/org/phoebus/olog/LogbooksResource.java:107-121 | a deleted logbook is still found by name, now inactive, and only its name leaves findAll |
| Tags.Keyed | src/main/java/org/phoebus/olog/TagRepository.java:98-101 | each tag of the batch is keyed by its name, in order |
| Tags.ValidateTags | src/main/java/org/phoebus/olog/TagsResource.java:152-174 | the batch passes exactly when every tag has a non-null, non-empty name; otherwise 400 |
| Tags.TagsResource.constructor | src/main/java/org/phoebus/olog/TagsResource.java:43-44 | the resource starts with an empty tag index |
| Tags.TagsResource.FindAll | src/main/java/org/phoebus/olog/TagsResource.java:52-54 | findAll lists exactly the stored tags that are active |
| Tags.TagsResource.FindByTitle | src/main/java/org/phoebus/olog/TagsResource.java:63-72 | the stored tag of that name, active or not; 404 when there is none |
| Tags.TagsResource.CreateTag | src/main/java/org/phoebus/olog/TagsResource.java:82-98 | an invalid body is 400 with no write; otherwise the tag under the path name is soft-deleted and the body saved under its own name and returned |
| Tags.TagsResource.UpdateTag | src/main/java/org/phoebus/olog/TagsResource.java:107-124 | 400 with no write exactly when some tag is invalid; otherwise the store becomes the old one with the batch on top, and the batch is returned |
| Tags.TagsResource.DeleteTag | src/main/java/org/phoebus/olog/TagsResource.java:127-140 | 404 when there is no such tag; otherwise exactly that tag is soft-deleted |
| Tags.KeyedWrittenValid | src/main/java/org/phoebus/olog/TagsResource.java:107-124 | a valid batch stores every tag under its own name |
| Tags.DeletedStillFoundInactive | src/main/java/org/phoebus/olog/TagsResource.java:127-140 | a deleted tag is still found by name, now inactive, and only its name leaves findAll |
| Levels.Keyed | src/main/java/org/phoebus/olog/LevelsResource.java:108-116 | each level of the batch is keyed by its name, in order |
| Levels.LevelsResource.constructor | src/main/java/org/phoebus/olog/LevelsResource.java:46-49 | the resource starts with an empty level index |
| Levels.LevelsResource.FindAll | src/main/java/org/phoebus/olog/LevelsResource.java:46-49 | findAll lists every stored level and nothing else |
| Levels.LevelsResource.FindByTitle | src/main/java/org/phoebus/olog/LevelsResource.java:58-68 | the level of that name; 404 when there is none |
| Levels.LevelsResource.ValidateLevelRequest | src/main/java/org/phoebus/olog/LevelsResource.java:149-164 | the check as written: 400 for a missing or empty name; a pass exactly when the name is set and no level is stored; with levels stored, the first level listed decides: 400 when it and the new level are both defaults, and no answer at all otherwise; wherever it answers, it answers as the documented rule does |
| Levels.LevelsResource.ValidateLevelIntended | src/main/java/org/phoebus/olog/LevelsResource.java:142-164 | the check as documented, visiting each stored level once: a level passes exactly when it has a non-empty name and is not a second default beside a stored default; otherwise 400 |
| Levels.LevelsResource.ValidateLevelsRequest | src/main/java/org/phoebus/olog/LevelsResource.java:138-140 | each level is checked in turn against the levels stored before the request: the batch passes exactly when every level is named and the batch or the store is empty; with levels stored, the check of the batch's first level decides, and may never answer; wherever it answers, it passes exactly when the documented rule accepts every level |
| Levels.LevelsResource.CreateLevel | src/main/java/org/phoebus/olog/LevelsResource.java:77-93 | ends as the check as written does: it stores the level, after removing the one under the path name, exactly when the level is named and no level was stored; a refusal or a request that never answers writes nothing; wherever it answers, it agrees with the documented rule, and at most one default level is kept |
| Levels.LevelsResource.UpdateLevels | src/main/java/org/phoebus/olog/LevelsResource.java:101-117 | ends as the batch check as written does: the store becomes the old one with the batch on top exactly when every level is named and the batch or the store is empty; otherwise nothing is written, and with levels stored the batch's first level decides between 400 and no answer |
| Levels.LevelsResource.WriteLevels | src/main/java/org/phoebus/olog/LevelsResource.java:107-116 | removing each stored namesake and then saving the batch leaves the old store with the batch on top |
| Levels.LevelsResource.DeleteLevel | src/main/java/org/phoebus/olog/LevelsResource.java:119-133 | 404 when there is no such level; otherwise exactly that level is removed |
| Levels.KeyedWrittenValid | src/main/java/org/phoebus/olog/LevelsResource.java:101-117 | a batch of named levels stores every level under its own name |
| Levels.SecondDefaultRefused | src/main/java/org/phoebus/olog/LevelsResource.java:155-163 | a second default level is never accepted: the documented rule refuses it whatever its name, and the loop as written refuses it when the stored default is listed first and otherwise never answers |
| Levels.BatchCanAddTwoDefaults | src/main/java/org/phoebus/olog/LevelsResource.java:138-140 | each level of a batch is checked against the stored levels only, so on an empty store every check passes, under both the documented rule and the loop as written, and a batch can store two defaults at once |
| Levels.ValidateLevelAsWritten | src/main/java/org/phoebus/olog/LevelsResource.java:155-163 | the loop as written: it accepts only when no level is stored, rejects a second default only when the first stored level is the default, and otherwise never ends |
| Levels.SecondLevelHangs | src/main/java/org/phoebus/olog/LevelsResource.java:155-163 | with one non-default level stored, validating another level never ends, while the intended rule accepts it |
| Levels.AsWrittenAgreesWhenItEnds | src/main/java/org/phoebus/olog/LevelsResource.java:149-164 | wherever the loop as written ends, it accepts exactly what the intended rule accepts |
| LogTemplates.AsWrittenClashIsClash | src/main/java/org/phoebus/olog/LogTemplateResource.java:83-88 | every name clash the comparison as written finds is a case-insensitive clash |
| LogTemplates.SameNameTwiceAccepted | src/main/java/org/phoebus/olog/LogTemplateResource.java:86 | a stored "Shift" does not clash with a new "Shift" under the comparison as written, though it does ignoring case |
| LogTemplates.LowerCaseStoredNameClashes | src/main/java/org/phoebus/olog/LogTemplateResource.java:86 | a stored lower-case name clashes with the same name in other case under both comparisons |
| LogTemplates.DuplicateScanAsWritten | src/main/java/org/phoebus/olog/LogTemplateResource.java:84-89 | the scan as written accepts exactly when no template is stored; otherwise it only looks at the first stored template and rejects or never ends |
| LogTemplates.SecondTemplateHangs | src/main/java/org/phoebus/olog/LogTemplateResource.java:84-89 | with one template "shift" stored, the scan as written never ends on a new template "Beam", though the names do not clash |
| LogTemplates.LogTemplateResource.constructor | src/main/java/org/phoebus/olog/LogTemplateResource.java:163-169 | the resource starts with no templates |
| LogTemplates.LogTemplateResource.AllTemplates | src/main/java/org/phoebus/olog/LogTemplateResource.java:163-169 | getAllTemplates returns every stored template and nothing else |
| LogTemplates.LogTemplateResource.ScanForDuplicate | src/main/java/org/phoebus/olog/LogTemplateResource.java:83-89 | the scan as written: it passes exactly when no template is stored; otherwise the first template listed decides: a null name, stored or new, throws, a stored name equal to the lower-cased new name is a 400, and anything else never answers; every 400 is a clash ignoring case |
| LogTemplates.LogTemplateResource.ScanForDuplicateIntended | src/main/java/org/phoebus/olog/LogTemplateResource.java:83-89 | the scan as intended, visiting each stored template once: it passes exactly when no stored name equals the trimmed new name ignoring case, and gives 400 otherwise; a null new name throws once a template is stored |
| LogTemplates.LogTemplateResource.CreateLogTemplate | src/main/java/org/phoebus/olog/LogTemplateResource.java:79-111 | with templates stored, it ends as the scan as written does, and every 400 it gives there is a clash ignoring case; it succeeds exactly when no template is stored and every logbook, and every tag when there are tags, is persisted; the template is then saved with the principal as owner under a fresh id; every refusal leaves the store unchanged |
| Logs.Normalised | src/main/java/org/phoebus/olog/LogRepository.java:120-122 | the indexed copy differs from the entry at most in its source, which becomes "" when null |
| Logs.Persisted | src/main/java/org/phoebus/olog/LogRepository.java:74-86 | a saved entry has the generated id and the creation time, keeps owner, logbooks, tags, properties, level and title, and has no attachment when the request carried no file content |
| Logs.GroupsOf | src/main/java/org/phoebus/olog/LogResource.java:456-463 | exactly the group properties among a set |
| Logs.NonGroup | src/main/java/org/phoebus/olog/LogResource.java:456-463 | exactly the other properties among a set |
| Logs.EntryError | src/main/java/org/phoebus/olog/LogResource.java:255-260 | createLog's first checks pass exactly when there is a logbook and a non-empty title; no logbook or an empty title is a 400, a null title throws |
| Logs.SupportedFiles | src/main/java/org/phoebus/olog/LogResource.java:700-725 | what the type check returns: nothing for a missing or empty file array, IllegalArgumentException when some file is HEIC or HEIF, otherwise the files, none of them HEIC or HEIF |
| Logs.CheckSupportedAttachmentTypes | src/main/java/org/phoebus/olog/LogResource.java:700-725 | the detection loop, stopping at the first HEIC or HEIF file, returns exactly SupportedFiles |
| Logs.AttachLoopAsWritten | src/main/java/org/phoebus/olog/LogResource.java:332-333 | the file loop as written throws exactly when a file array was sent and the type check returned null |
| Logs.FilesToAttach | src/main/java/org/phoebus/olog/LogResource.java:332-350 | the files the loop is meant to visit: those the type check returned, none when it returned null |
| Logs.EmptyFileArrayFailsAfterSave | src/main/java/org/phoebus/olog/LogResource.java:318-333 | an entry with no attachment metadata sent with an empty file array passes both checks, then the loop as written dereferences null, while the intended loop has nothing to do |
| Logs.AttachLoopAgreesWhenItRuns | src/main/java/org/phoebus/olog/LogResource.java:332-350 | wherever the loop as written does not throw, it visits the intended files |
| Logs.StoredFilename | src/main/java/org/phoebus/olog/LogResource.java:405 | the file name stored is the given one unless it is null or empty, and is never null |
| Logs.StoredDescription | src/main/java/org/phoebus/olog/LogResource.java:406-408 | the description stored is the given one unless it is null or empty, then the file's content type |
| Logs.AttachmentKey | src/main/java/org/phoebus/olog/LogResource.java:409-411 | an attachment is stored under the client's id when it is set |
| Logs.SavedAttachment | src/main/java/org/phoebus/olog/LogResource.java:405-411 | the stored attachment has the fallback file name and description and the chosen key |
| Logs.NamedAttachments | src/main/java/org/phoebus/olog/LogResource.java:157 | exactly the attachments whose file name is the one asked for |
| Logs.Joined | src/main/java/org/phoebus/olog/LogResource.java:522-523 | the entry with the group property added and nothing else changed |
| Logs.Merged | src/main/java/org/phoebus/olog/LogResource.java:465-473 | the persisted entry takes owner, modification time, level, properties, description, source, tags, logbooks and title from the request; id, state, creation time, events and attachments stay as persisted |
| Logs.KeepGroupProperty | src/main/java/org/phoebus/olog/LogResource.java:455-463 | the other properties are the ones sent; the group property sent is dropped and the persisted one kept; a property without a name throws |
| Logs.CheckGroup | src/main/java/org/phoebus/olog/LogResource.java:500-509 | one entry of groupLogEntries' first loop: 400 exactly when its group property is not the same group as the last one seen; its group property otherwise |
| Logs.NoConflictWhenAllSame | src/main/java/org/phoebus/olog/LogResource.java:493-512 | when every group found matches the last one seen, no two of the entries are in different groups |
| Logs.ReadyMeansNoThrow | src/main/java/org/phoebus/olog/LogResource.java:493-512 | entries on which grouping cannot throw are all stored and all ready |
| Logs.JoinedAllInGroup | src/main/java/org/phoebus/olog/LogResource.java:520-526 | after the last loop every named entry is in the chosen group |
| Logs.LogResource.constructor | src/main/java/org/phoebus/olog/LogRepository.java:74-146 | the repositories start empty |
| Logs.LogResource.FindById | src/main/java/org/phoebus/olog/LogResource.java:136-145 | the stored entry of that id; 404 when there is none |
| Logs.LogResource.Update | src/main/java/org/phoebus/olog/LogRepository.java:120-143 | the normalised entry is indexed under its id; a null description or title is a 500 and nothing is written |
| Logs.LogResource.Save | src/main/java/org/phoebus/olog/LogRepository.java:74-107 | the persisted entry is indexed under the generated id; a null description or title is a 500 and nothing is written |
| Logs.LogResource.HandleReply | src/main/java/org/phoebus/olog/LogResource.java:626-646 | 400 when the entry replied to is missing; otherwise the reply gets that entry's group property, which is made from the new id and added to the entry first when it had none; nothing else changes |
| Logs.LogResource.CreateLog | src/main/java/org/phoebus/olog/LogResource.java:250-290 | without a reply, succeeds exactly when the entry checks pass, every logbook, and every tag when there are tags, is persisted and a description is present; then the entry is saved with the principal as owner; every refusal writes nothing |
| Logs.LogResource.SaveAttachment | src/main/java/org/phoebus/olog/LogResource.java:398-418 | 404 with no write when the entry is missing; otherwise the attachment with its fallbacks is stored and added to the entry, which is updated |
| Logs.LogResource.AttachFiles | src/main/java/org/phoebus/olog/LogResource.java:332-350 | only the new entry changes, and only in its attachments: it gains exactly the attachments saved for the files, each file with a client attachment of its name saved from one of them with that name's fallbacks, id and description, and every other file skipped; the attachment repository holds them under their ids in file order |
| Logs.LogResource.AttachOne | src/main/java/org/phoebus/olog/LogResource.java:334-349 | one file: when a client attachment has its name, the attachment saved from it, with its file name, description and id, joins both the entry and the attachment repository; otherwise nothing changes |
| Logs.LogResource.AttachCreated | src/main/java/org/phoebus/olog/LogResource.java:332-350 | on a new entry, its attachments become exactly the attachments saved for the files the type check returned, and the repository gains them under their ids |
| Logs.LogResource.CreateLogMultipart | src/main/java/org/phoebus/olog/LogResource.java:311-354 | a file count different from the attachment count, or a HEIC or HEIF file, is a 400 with no write; otherwise createLog, then the new entry's attachments are exactly those saved for the files from the matching client attachments, and the attachment repository gains them under their ids; an empty file array saves the entry and then fails with a NullPointerException |
| Logs.StoreSavedFinds | src/main/java/org/phoebus/olog/LogResource.java:343-349 | an attachment the file loop saved is found under its id afterwards, unless a later file's attachment took the same id |
| Logs.LogResource.UpdateLog | src/main/java/org/phoebus/olog/LogResource.java:440-482 | 400 when the path id is not the body's id, 404 when the entry is missing; otherwise the old version is archived and the merge stored, keeping attachments, creation time, events and the persisted group property |
| Logs.LogResource.GetAttachment | src/main/java/org/phoebus/olog/LogResource.java:154-190 | succeeds exactly when the entry exists, exactly one attachment has that name and its id is stored; 404 otherwise, and a null file name throws |
| Logs.LogResource.CollectGroupEntries | src/main/java/org/phoebus/olog/LogResource.java:493-512 | 400 when some id names no entry or two entries are in different groups; otherwise the entries in order with their group properties and the last one seen |
| Logs.LogResource.CollectOne | src/main/java/org/phoebus/olog/LogResource.java:494-511 | one id of the first loop: 400 when it names no entry or conflicts; otherwise the collection grows by that entry |
| Logs.LogResource.JoinGroup | src/main/java/org/phoebus/olog/LogResource.java:520-526 | exactly the named entries without a group property gain the group; nothing else changes |
| Logs.LogResource.JoinOne | src/main/java/org/phoebus/olog/LogResource.java:521-524 | one entry of the last loop joins the group when it has no group property |
| Logs.LogResource.GroupLogEntries | src/main/java/org/phoebus/olog/LogResource.java:486-528 | refused with no write when an id is missing or two entries are in different groups, and only then when no entry throws; otherwise the group is the existing one or a new one, every ungrouped named entry joins it, and every named entry ends in it |
| Properties.Keyed | src/main/java/org/phoebus/olog/PropertiesResource.java:120 | each property of the batch is keyed by its name, in order |
| Properties.ValidateAttributeRequest | src/main/java/org/phoebus/olog/PropertiesResource.java:202-232 | passes exactly when every attribute has a non-empty name and a state; 400 otherwise |
| Properties.ValidatePropertyRequest | src/main/java/org/phoebus/olog/PropertiesResource.java:168-190 | passes exactly when name and owner are non-empty, the state is set and every attribute passes; otherwise 400, or a throw for a null attribute set |
| Properties.ValidatePropertiesRequest | src/main/java/org/phoebus/olog/PropertiesResource.java:151-155 | passes exactly when every property passes; otherwise fails as the first failing property does |
| Properties.PropertiesResource.constructor | src/main/java/org/phoebus/olog/PropertiesResource.java:47-48 | the resource starts with an empty property index |
| Properties.PropertiesResource.FindAll | src/main/java/org/phoebus/olog/PropertiesResource.java:55-60 | the active stored properties, or every stored one when inactive ones are asked for |
| Properties.PropertiesResource.FindByTitle | src/main/java/org/phoebus/olog/PropertiesResource.java:63-71 | the stored property of that name, active or not; 404 when there is none |
| Properties.PropertiesResource.CreateProperty | src/main/java/org/phoebus/olog/PropertiesResource.java:74-95 | refused with no write exactly when the property is invalid; otherwise the namesake under the path name is retired and the body, owned by the principal, saved under its own name |
| Properties.PropertiesResource.UpdateProperty | src/main/java/org/phoebus/olog/PropertiesResource.java:105-123 | every property is validated before any write, and any invalid one leaves the store unchanged; otherwise the store becomes the old one with the batch on top |
| Properties.PropertiesResource.WriteProperties | src/main/java/org/phoebus/olog/PropertiesResource.java:113-122 | retiring each namesake and then saving the batch leaves the old store with the batch on top |
| Properties.PropertiesResource.RetireEach | src/main/java/org/phoebus/olog/PropertiesResource.java:113-119 | the delete loop marks each stored namesake Inactive, in order |
| Properties.PropertiesResource.DeleteProperty | src/main/java/org/phoebus/olog/PropertiesResource.java:125-138 | 404 when there is no such property; otherwise exactly that property is marked Inactive |
| Properties.KeyedWrittenValid | src/main/java/org/phoebus/olog/PropertiesResource.java:120-122 | a batch of named properties stores each under its own name |
| Properties.DeletedStillListedAsInactive | src/main/java/org/phoebus/olog/PropertiesResource.java:125-138 | a deleted property is still stored, now Inactive, and its name leaves the active ones and no other does |
| Properties.InvalidAttributeRefused | src/main/java/org/phoebus/olog/PropertiesResource.java:219-232 | a property holding an attribute without a name or a state is refused with 400 |
| LogEntryValidator.Repeat | src/main/java/org/phoebus/olog/LogEntryValidator.java:73-87 | a run of `n` copies of one rejection |
| LogEntryValidator.RejectUnknownLogbooks | src/main/java/org/phoebus/olog/LogEntryValidator.java:73-78 | one invalid-logbook rejection per logbook of the set whose name is not persisted, the set holding one logbook per name and owner, whatever the visiting order |
| LogEntryValidator.RejectUnknownTags | src/main/java/org/phoebus/olog/LogEntryValidator.java:80-87 | one invalid-tag rejection per tag of the set whose name is not persisted, the set holding one tag per name, whatever the visiting order |
| LogEntryValidator.UnknownTagsByName | src/main/java/org/phoebus/olog/LogEntryValidator.java:80-87 | one invalid-tag rejection per unknown tag name |
| LogEntryValidator.UnknownLogbooksByEquals | src/main/java/org/phoebus/olog/LogEntryValidator.java:73-78 | one invalid-logbook rejection per unknown logbook as Logbook.equals counts them: one per name and owner |
| LogEntryValidator.Validate | src/main/java/org/phoebus/olog/LogEntryValidator.java:55-88 | the rejections recorded, in order: a missing or empty title, an empty logbook set, one per unknown logbook, one per unknown tag |
| LogEntryValidator.RejectionCount | src/main/java/org/phoebus/olog/LogEntryValidator.java:59-87 | an entry draws one rejection for a missing title, one for no logbook, one per unknown logbook name and owner, and one per unknown tag name |
| LogEntryValidator.NoRejectionsIffValid | src/main/java/org/phoebus/olog/LogEntryValidator.java:59-87 | no rejection exactly when the entry has a title, a logbook and only persisted logbook and tag names |
| LogEntryValidator.OneUnknownLogbookOneRejection | src/main/java/org/phoebus/olog/LogEntryValidator.java:73-78 | a valid entry with one unknown logbook added draws exactly one rejection |
| LogEntryValidator.OneUnknownTagOneRejection | src/main/java/org/phoebus/olog/LogEntryValidator.java:80-87 | a valid entry with one unknown tag added draws exactly one rejection |
| LogEntryValidator.MissingTitleOneRejection | src/main/java/org/phoebus/olog/LogEntryValidator.java:59-62 | a valid entry with a null or empty title draws exactly the title rejection |
| LogEntryValidator.IsValid | src/main/java/org/phoebus/olog/entity/LogEntryValidator.java:51-70 | true exactly when every logbook name and every tag name is persisted; false at the first unknown one |
| LogEntryValidator.IsValidIgnoresTitleAndLogbooks | src/main/java/org/phoebus/olog/entity/LogEntryValidator.java:51-70 | an entry with no title and no logbook but known tags is valid, while Validate rejects it twice |
| SearchUtil.FirstQuoted | src/main/java/org/phoebus/olog/LogSearchUtil.java:416-424 | one round of the quoted-term loop yields a quoted term and a shorter text still holding an even number of quotes |
| SearchUtil.FirstQuotedAt | src/main/java/org/phoebus/olog/LogSearchUtil.java:415-424 | the round cuts from the first quote to the next one, which exists because the count is even |
| SearchUtil.QuotedRounds | src/main/java/org/phoebus/olog/LogSearchUtil.java:415-424 | the loop's rounds yield only quoted terms and leave a text without quotes |
| SearchUtil.SearchTerms | src/main/java/org/phoebus/olog/LogSearchUtil.java:402-430 | IllegalArgumentException exactly for an odd number of quotes; otherwise every term is a quoted term or a non-empty piece free of quotes and separators; without quotes, the non-empty pieces between separators |
| SearchUtil.SearchTermsUnquoted | src/main/java/org/phoebus/olog/LogSearchUtil.java:405-408 | without quotes the terms are the non-empty pieces of the split on `\|`, `,`, `;`, whitespace and `+` |
| SearchUtil.SearchTermsQuoted | src/main/java/org/phoebus/olog/LogSearchUtil.java:413-430 | with quotes the terms are the quoted terms in order, then the non-empty pieces of what is left |
| SearchUtil.FirstQuotedTermWhole | src/main/java/org/phoebus/olog/LogSearchUtil.java:413-420 | the first term is the first quoted term whole, quotes included, whatever separators it holds |
| SearchUtil.GetSearchTerms | src/main/java/org/phoebus/olog/LogSearchUtil.java:402-430 | the tokenizer loop returns exactly SearchTerms |
| SearchUtil.ClassifyTerm | src/main/java/org/phoebus/olog/LogSearchUtil.java:93-100 | a quoted term becomes a lower-cased phrase without its quotes; any other term a lower-cased word |
| SearchUtil.TermsOfValues | src/main/java/org/phoebus/olog/LogSearchUtil.java:89-116 | the desc and title terms of all values fail exactly when some value has an odd number of quotes |
| SearchUtil.LevelTerms | src/main/java/org/phoebus/olog/LogSearchUtil.java:223-229 | every piece of every level value, trimmed and lower-cased, in order |
| SearchUtil.PropertyFilterOf | src/main/java/org/phoebus/olog/LogSearchUtil.java:197-217 | a property filter's value counts only when it names an attribute |
| SearchUtil.AttachmentQueries | src/main/java/org/phoebus/olog/LogSearchUtil.java:262-287 | the attachment queries are filename patterns, except that an empty or "null" piece asks for any attachment and ends the scan |
| SearchUtil.ParseTimes | src/main/java/org/phoebus/olog/LogSearchUtil.java:173-186 | all time values parsed in order, or a parse failure naming a value that does not parse |
| SearchUtil.Earliest | src/main/java/org/phoebus/olog/LogSearchUtil.java:172-176 | the start is no later than now or any value, and is one of them |
| SearchUtil.Latest | src/main/java/org/phoebus/olog/LogSearchUtil.java:182-186 | the end is no earlier than any value, and is one of them or the least instant |
| SearchUtil.MaxOf | src/main/java/org/phoebus/olog/LogSearchUtil.java:232 | the largest of the values, and one of them |
| SearchUtil.LargestValue | src/main/java/org/phoebus/olog/LogSearchUtil.java:230-250 | size, limit and from take the largest value supplied; one value that does not parse is ignored; among several, one that does not parse is a NumberFormatException |
| SearchUtil.SortOf | src/main/java/org/phoebus/olog/LogSearchUtil.java:251-261 | a first value beginning, in any case, with ASC or UP sorts ascending, one beginning with DESC or DOWN descending; no value, or any other first value, keeps the order as it was |
| SearchUtil.SortFirstValueOnly | src/main/java/org/phoebus/olog/LogSearchUtil.java:252-254 | the values after the first never change the order |
| SearchUtil.SortIgnoresCase | src/main/java/org/phoebus/olog/LogSearchUtil.java:255-257 | two first values that are equal ignoring case pick the same order |
| SearchUtil.ApplyParameter | src/main/java/org/phoebus/olog/LogSearchUtil.java:87-292 | keys are matched stripped and lower-cased, and a parameter whose key is not known leaves every accumulator unchanged |
| SearchUtil.StartIsEarliest | src/main/java/org/phoebus/olog/LogSearchUtil.java:170-179 | with several start values the earliest wins, never later than the clock read the "start" case begins from |
| SearchUtil.EndIsLatest | src/main/java/org/phoebus/olog/LogSearchUtil.java:180-189 | with several end values the latest wins |
| SearchUtil.ApplyAllStep | src/main/java/org/phoebus/olog/LogSearchUtil.java:87-292 | the scan from one parameter is that parameter followed by the scan of the rest, and a failure stops it |
| SearchUtil.Finish | src/main/java/org/phoebus/olog/LogSearchUtil.java:295-319 | 400 exactly when the start is after the end, so equal times pass; the range is set exactly for a time search; the size is the smaller of the requested size and the maximum |
| SearchUtil.BuildSearchRequest | src/main/java/org/phoebus/olog/LogSearchUtil.java:69-390 | the parameter loop followed by the final checks returns exactly the parameters folded in request order and finished, with the default end taken from the first clock read and each start from the later one |
| TimeParser.MatchAt | src/main/java/org/phoebus/util/time/TimeParser.java:45-47 | the pattern anchored at a position matches a non-empty stretch, with digits only in group 1 |
| TimeParser.Find | src/main/java/org/phoebus/util/time/TimeParser.java:77 | Matcher.find from a position: the first match at or after it, inside the text |
| TimeParser.Matches | src/main/java/org/phoebus/util/time/TimeParser.java:77-164 | every match the matcher loop meets, in order, each well formed |
| TimeParser.QuantityOf | src/main/java/org/phoebus/util/time/TimeParser.java:79-81 | an empty group 1 counts as 1, a lone "." is a NumberFormatException, otherwise the decimal value with its fraction |
| TimeParser.Full | src/main/java/org/phoebus/util/time/TimeParser.java:82 | the int cast of the quantity: its whole part, saturated at Integer.MAX_VALUE |
| TimeParser.Carry | src/main/java/org/phoebus/util/time/TimeParser.java:93-162 | the int cast of fraction times the finer-unit factor plus one half lies between 0 and Integer.MAX_VALUE |
| TimeParser.Add | src/main/java/org/phoebus/util/time/TimeParser.java:96-161 | Map.compute adds the count to one unit in int arithmetic, wrapping past Integer.MAX_VALUE; the unit is then present, every other unit keeps its count, and counts within int stay within int |
| TimeParser.PeriodOf | src/main/java/org/phoebus/util/time/TimeParser.java:166-178 | the Period is built exactly when the years, the months and seven times the weeks, wrapped in int, plus the days all fit an int, and then holds those; otherwise an ArithmeticException |
| TimeParser.RoundsStep | src/main/java/org/phoebus/util/time/TimeParser.java:77-164 | one round of the matcher loop that does not raise goes on after its match |
| TimeParser.RoundsRaise | src/main/java/org/phoebus/util/time/TimeParser.java:77-81 | a round whose number is refused ends the loop with that exception |
| TimeParser.RoundsEnd | src/main/java/org/phoebus/util/time/TimeParser.java:77 | with no match left the loop ends with what it has |
| TimeParser.RoundsIsFold | src/main/java/org/phoebus/util/time/TimeParser.java:77-164 | the matcher loop is the fold of one round over the list of matches |
| TimeParser.ParseTemporalAmount | src/main/java/org/phoebus/util/time/TimeParser.java:69-187 | the loop filling the quantity map, then the Period or Duration, returns exactly ParseSpec, int wrap-around and ArithmeticException included |
| TimeParser.MatchRound | src/main/java/org/phoebus/util/time/TimeParser.java:77-164 | one round of the matcher loop: the exception the match raises ends the loop with it; otherwise the loop goes on after the match from the new map and flag, as it would have gone on from where the match was found |
| TimeParser.Format | src/main/java/org/phoebus/util/time/TimeParser.java:194-265 | the Period and Duration branches write exactly FormatSpec |
| TimeParser.AppendCount | src/main/java/org/phoebus/util/time/TimeParser.java:203-216 | appends the singular text for 1, the number and the plural for more, nothing otherwise |
| TimeParser.AppendUnit | src/main/java/org/phoebus/util/time/TimeParser.java:224-252 | one Duration step: the count is the int cast of the quotient, appended when positive, and its seconds taken off |
| TimeParser.FormatPeriod | src/main/java/org/phoebus/util/time/TimeParser.java:197-217 | the Period branch writes FormatSpec of the Period |
| TimeParser.AppendClock | src/main/java/org/phoebus/util/time/TimeParser.java:224-252 | the day, hour and minute steps write the clock as written |
| TimeParser.FormatDuration | src/main/java/org/phoebus/util/time/TimeParser.java:218-264 | the Duration branch writes FormatSpec of the Duration |
| TimeParserProps.ApplyWholeMatch | src/main/java/org/phoebus/util/time/TimeParser.java:90-163 | a match with a whole count adds it to its unit in int arithmetic (years: replaces) and carries nothing |
| TimeParserProps.FoldWhole | src/main/java/org/phoebus/util/time/TimeParser.java:77-164 | over whole counts the loop never raises and keeps every count an int; years end as the last year count, and the Period switch is on exactly when some unit is years, months or weeks |
| TimeParserProps.FoldWholeTotals | src/main/java/org/phoebus/util/time/TimeParser.java:77-164 | over whole counts each unit other than years ends as the sum of its counts, wrapped to an int |
| TimeParserProps.FoldKeepsIntCounts | src/main/java/org/phoebus/util/time/TimeParser.java:77-164 | a loop that does not raise leaves every count within int range |
| TimeParserProps.ParseIsFold | src/main/java/org/phoebus/util/time/TimeParser.java:69-187 | parseTemporalAmount on text other than "now" is the amount of the fold over its matches |
| TimeParserProps.FoldWholeAmount | src/main/java/org/phoebus/util/time/TimeParser.java:166-186 | over whole counts the loop gives: with a calendar unit, a Period of the last years, the wrapped month sum and the wrapped seven days a week plus the days, dropping hours and below, or an ArithmeticException when those days leave int range; otherwise the Duration summing each unit's wrapped total |
| TimeParserProps.AmountOfCounts | src/main/java/org/phoebus/util/time/TimeParser.java:166-186 | the amount of a finished loop depends on its counts alone: with a calendar unit, the Period when the years, the months and seven days a week (wrapped) plus the days fit an int, ArithmeticException otherwise; without one, the Duration of every unit in nanoseconds |
| TimeParserProps.WholeAmountWithinInt | src/main/java/org/phoebus/util/time/TimeParser.java:166-186 | when no unit sum leaves int range, the result is the Period of the last years, the months and seven days a week plus the days, or the Duration of every match in nanoseconds |
| TimeParserProps.ParseWholeCounts | src/main/java/org/phoebus/util/time/TimeParser.java:69-187 | parseTemporalAmount of whole counts is the amount of their int-wrapped sums, or the ArithmeticException of a Period whose days leave int range |
| TimeParserProps.FoldRaisesOnLoneDot | src/main/java/org/phoebus/util/time/TimeParser.java:79-81 | the matcher loop itself raises exactly when some match has a lone "." for its number, and then NumberFormatException |
| TimeParserProps.ParseRaisesOnLoneDot | src/main/java/org/phoebus/util/time/TimeParser.java:69-187 | parseTemporalAmount raises NumberFormatException exactly when some match has a lone "."; its only other exception is the ArithmeticException of days beyond int range in a Period |
| TimeParserText.MatchesOfJoined | src/main/java/org/phoebus/util/time/TimeParser.java:45-47 | on counts and unit words separated by single spaces, the matcher finds one match per piece, the count as group 1 and the word as unit |
| TimeParserText.PieceMatchesSums | src/main/java/org/phoebus/util/time/TimeParser.java:77-164 | the matches of the pieces have whole counts and the same per-unit sums, last years, calendar switch and nanoseconds as the pieces |
| TimeParserText.PiecesAppend | src/main/java/org/phoebus/util/time/TimeParser.java:77-164 | the sums over pieces written one after another add up |
| TimeParserText.NotNow | src/main/java/org/phoebus/util/time/TimeParser.java:71 | text starting with a digit is not "now" in any case |
| TimeParserText.ParseJoined | src/main/java/org/phoebus/util/time/TimeParser.java:69-187 | counts and unit words separated by single spaces parse as their matches do, and to what they amount to when no sum leaves int range |
| TimeParserText.PieceMatchesAmount | src/main/java/org/phoebus/util/time/TimeParser.java:166-186 | pieces whose sums fit an int give the amount they add up to |
| TimeParserText.OwnUnitYears | src/main/java/org/phoebus/util/time/TimeParser.java:46 | the unit group matches "years" as a whole (likewise the other OwnUnit lemmas for each word format writes) |
| TimeParserFormat.TrimSpacedJoined | src/main/java/org/phoebus/util/time/TimeParser.java:264 | the pieces format appends, each followed by a space, trimmed, are the pieces separated by single spaces |
| TimeParserFormat.FormatPeriodPieces | src/main/java/org/phoebus/util/time/TimeParser.java:197-217 | format of a non-zero Period writes its positive counts, largest unit first, separated by single spaces |
| TimeParserFormat.PeriodRoundTrip | src/main/java/org/phoebus/util/time/TimeParser.java:69-217 | a Period with years or months survives format and parseTemporalAmount unchanged |
| TimeParserFormat.DaysRoundTrip | src/main/java/org/phoebus/util/time/TimeParser.java:69-217 | a Period of days alone comes back as a Duration of as many days |
| TimeParserFormat.ZeroRoundTrip | src/main/java/org/phoebus/util/time/TimeParser.java:71-72 | a zero Period or Duration is written "now", which parses to a zero Duration |
| TimeParserFormat.ClockTextPieces | src/main/java/org/phoebus/util/time/TimeParser.java:224-264 | the clock and millisecond text, trimmed, is its pieces separated by single spaces |
| TimeParserFormat.FormatDurationPieces | src/main/java/org/phoebus/util/time/TimeParser.java:218-264 | format of a Duration with whole seconds writes its clock and milliseconds as pieces |
| TimeParserFormat.ClockRoundTrip | src/main/java/org/phoebus/util/time/TimeParser.java:69-264 | a clock and millisecond count, within int range, read back as their total |
| TimeParserFormat.ClockExact | src/main/java/org/phoebus/util/time/TimeParser.java:224-252 | below 24856 days the int arithmetic takes the clock apart as intended |
| TimeParserFormat.IntendedDurationRoundTrip | src/main/java/org/phoebus/util/time/TimeParser.java:218-264 | every Duration of whole milliseconds with at most Integer.MAX_VALUE days survives the intended format and parseTemporalAmount |
| TimeParserFormat.IntendedAgrees | src/main/java/org/phoebus/util/time/TimeParser.java:218-264 | where format has whole seconds and does not overflow, it writes what was intended |
| TimeParserFormat.DurationRoundTrip | src/main/java/org/phoebus/util/time/TimeParser.java:69-264 | a Duration of at least a second, below 24856 days and in whole milliseconds survives format and parseTemporalAmount |
| TimeParserFormat.SubSecondWrittenNow | src/main/java/org/phoebus/util/time/TimeParser.java:220-222 | half a second is written "now", which reads back as zero |
| TimeParserFormat.OverflowAtDays | src/main/java/org/phoebus/util/time/TimeParser.java:224-252 | at 24856 days the int products overflow and format writes hours, minutes and seconds that are not there |
| TimeParserExamples.MonthWeekDaysMinutesSeconds | src/test/java/org/phoebus/util/time/TimeParserTest.java:82-83 | "1 month 1 weeks 3 days 20 mins 10 sec" parses to Period(0, 1, 10) |
| TimeParserExamples.SixtyDays | src/main/java/org/phoebus/util/time/TimeParser.java:180-186 | sixty days with no calendar unit are sixty exact days |
| TimeParserExamples.MillisReadAsMinutes | src/main/java/org/phoebus/util/time/TimeParser.java:120-128 | "5 millis" falls under the "mi" branch and is read as five minutes |
| TimeParserExamples.DaysPastIntRaise | src/main/java/org/phoebus/util/time/TimeParser.java:171-177 | "2147483647 days 1 weeks" raises ArithmeticException when plusDays leaves int range |
| TimeParserExamples.DaySumWraps | src/main/java/org/phoebus/util/time/TimeParser.java:140 | "2147483647 days 1 day" wraps the day count around to Integer.MIN_VALUE, a negative Duration |
| TimeParserExamples.UnitsAsWritten | src/main/java/org/phoebus/util/time/TimeParser.java:90-163 | every unit word but "millis" is read in the unit it names |
| TimeParserExamples.IntendedUnitsNamed | src/main/java/org/phoebus/util/time/TimeParser.java:46 | read as intended, every unit word is the unit it names |
| Authorization.GroupRole | src/main/java/org/phoebus/olog/AuthorizationService.java:33-35 | a group's authority is "ROLE_" followed by the group trimmed and upper-cased |
| Authorization.GroupRolesNormalised | src/main/java/org/phoebus/olog/AuthorizationService.java:33-35 | every authority a configured group list yields is "ROLE_" followed by text with no comma and no lower-case letter |
| Authorization.SingleGroup | src/main/java/org/phoebus/olog/AuthorizationService.java:33 | a list without a comma is one group |
| Authorization.GroupRoleIgnoresCaseAndSpaces | src/main/java/org/phoebus/olog/AuthorizationService.java:34 | two spellings of a group grant the same authority exactly when they agree once trimmed and upper-cased |
| Authorization.Setting | src/main/java/org/phoebus/olog/AuthorizationService.java:30-62 | a configured value, or the binding's default when the key is not set |
| Authorization.ConfiguredGroups | src/main/java/org/phoebus/olog/AuthorizationService.java:30-68 | the groups of each role as the five init methods build them, the logbook groups read from their own key |
| Authorization.ConfiguredGroupsAsWritten | src/main/java/org/phoebus/olog/AuthorizationService.java:54-60 | as bound in the source, the logbook groups follow "property-groups" whenever it is set |
| Authorization.BindingsAgreeByDefault | src/main/java/org/phoebus/olog/AuthorizationService.java:54-68 | the binding as written and the intended one agree while neither "property-groups" nor "logbook-groups" is set |
| Authorization.PropertySettingMovesLogbookRole | src/main/java/org/phoebus/olog/AuthorizationService.java:54-68 | setting "property-groups" to "olog-properties" takes the logbook role from olog-logbooks and gives it to olog-properties |
| Authorization.GrantsLogbookToOne | src/main/java/org/phoebus/olog/AuthorizationService.java:87-103 | a user with the one authority a may change logbooks exactly when a is an admin or logbook group |
| Authorization.AdminGrantsEveryRole | src/main/java/org/phoebus/olog/AuthorizationService.java:87-88 | an admin group authorizes every role |
| Authorization.AdminRoleNeedsAdminGroup | src/main/java/org/phoebus/olog/AuthorizationService.java:87-118 | the admin role is granted exactly to holders of an admin group |
| Authorization.LogRoleIsWeakest | src/main/java/org/phoebus/olog/AuthorizationService.java:89-115 | whoever holds any role may also write log entries |
| Authorization.SpecificRolesNeedOwnGroup | src/main/java/org/phoebus/olog/AuthorizationService.java:89-115 | without an admin group, logbooks, tags and properties each need their own group, and log entries need any of the four |
| Authorization.GrantsMonotone | src/main/java/org/phoebus/olog/AuthorizationService.java:81-119 | more authorities never take a role away |
| Authorization.LowerCaseAuthorityGrantsNothing | src/main/java/org/phoebus/olog/AuthorizationService.java:33-35 | an authority with a lower-case letter after "ROLE_" matches no configured group and grants nothing |
| Authorization.AuthorizationService.constructor | src/main/java/org/phoebus/olog/AuthorizationService.java:24-28 | every group list starts empty |
| Authorization.AuthorizationService.InitializeAdminRoles | src/main/java/org/phoebus/olog/AuthorizationService.java:30-36 | replaces the admin groups by the list's authorities and changes nothing else |
| Authorization.AuthorizationService.InitializeChannelModRoles | src/main/java/org/phoebus/olog/AuthorizationService.java:38-44 | replaces the log groups by the list's authorities and changes nothing else |
| Authorization.AuthorizationService.InitializeTagRoles | src/main/java/org/phoebus/olog/AuthorizationService.java:46-52 | replaces the tag groups by the list's authorities and changes nothing else |
| Authorization.AuthorizationService.InitializeLogbookRoles | src/main/java/org/phoebus/olog/AuthorizationService.java:54-60 | replaces the logbook groups by the list's authorities and changes nothing else |
| Authorization.AuthorizationService.InitializePropertyRoles | src/main/java/org/phoebus/olog/AuthorizationService.java:62-68 | replaces the property groups by the list's authorities and changes nothing else |
| Authorization.AuthorizationService.Configure | src/main/java/org/phoebus/olog/AuthorizationService.java:30-68 | after start-up the service holds the groups as bound in the source: the logbook groups follow "property-groups" whenever that key is set |
| Authorization.AuthorizationService.IsAuthorizedRole | src/main/java/org/phoebus/olog/AuthorizationService.java:81-119 | true exactly when the authorities meet an admin group or a group of the expected role, any role's group for log entries, and never for admin otherwise |
| Base64.CharValue | src/main/java/org/phoebus/olog/security/SessionFilter.java:123 | every alphabet character of the basic decoder stands for a value below 64 |
| Base64.ValueChar | src/main/java/org/phoebus/olog/security/SessionFilter.java:123 | each value below 64 has an alphabet character that stands for it |
| Base64.EncodeTriple | src/main/java/org/phoebus/olog/security/SessionFilter.java:123 | a group of three bytes takes four alphabet characters |
| Base64.EncodeUnpadded | src/main/java/org/phoebus/olog/security/SessionFilter.java:123 | the encoding before its padding uses alphabet characters only and never leaves one character over |
| Base64.EncodedLength | src/main/java/org/phoebus/olog/security/SessionFilter.java:123 | three bytes take four characters and a final one or two bytes are padded to four |
| Base64.PadStart | src/main/java/org/phoebus/olog/security/SessionFilter.java:123 | the position of the first '=', with no '=' before it |
| Base64.DecodeQuad | src/main/java/org/phoebus/olog/security/SessionFilter.java:123 | four characters give three bytes |
| Base64.Decode | src/main/java/org/phoebus/olog/security/SessionFilter.java:122-123 | the decoder throws IllegalArgumentException unless the text before its first '=' is alphabet characters, does not leave one character over, and is followed by a fitting padding or none |
| Base64.DecodeGroupsOfUnpadded | src/main/java/org/phoebus/olog/security/SessionFilter.java:123 | the characters before the padding decode back to the bytes they encode |
| Base64.DecodeEncode | src/main/java/org/phoebus/olog/security/SessionFilter.java:123 | decoding undoes encoding, for every byte string |
| Base64.ForeignCharacterRejected | src/main/java/org/phoebus/olog/security/SessionFilter.java:123 | a character outside the alphabet before the padding makes the decoder throw |
| Base64.TrailingAfterPaddingRejected | src/main/java/org/phoebus/olog/security/SessionFilter.java:123 | characters after a complete padding make the decoder throw |
| Security.BytesText | src/main/java/org/phoebus/olog/security/SessionFilter.java:124 | decoded ASCII bytes read as the characters of those codes |
| Security.TextBytes | src/main/java/org/phoebus/olog/security/SessionFilter.java:124 | the bytes a client sends for ASCII credentials read back as the same text |
| Security.SplitAtFirst | src/main/java/org/phoebus/olog/security/SessionFilter.java:126 | split(":", 2): the text whole when it has no ':', otherwise the part before the first ':' and the rest |
| Security.SplitAtFirstOfJoined | src/main/java/org/phoebus/olog/security/SessionFilter.java:126 | splitting a head without ':' joined to a rest by ':' gives the head and the rest back |
| Security.GetUsernameAndPassword | src/main/java/org/phoebus/olog/security/SessionFilter.java:119-129 | null for a missing header or one not starting with "basic" in any case; IllegalArgumentException for a bad encoding; otherwise one or two parts |
| Security.BasicCredentialsAsWritten | src/main/java/org/phoebus/olog/security/SessionFilter.java:101-106 | as written, doFilter reads the second part unchecked: the only failures are the bad encoding and, for credentials without ":", ArrayIndexOutOfBoundsException |
| Security.BasicCredentials | src/main/java/org/phoebus/olog/security/SessionFilter.java:101-106 | the user name and password of the header, with no ':' in the user name; a bad encoding throws IllegalArgumentException |
| Security.CredentialsAgreeUnlessThrown | src/main/java/org/phoebus/olog/security/SessionFilter.java:101-106 | the corrected reading differs from the code as written only where the code throws |
| Security.EncodingHasNoSpaces | src/main/java/org/phoebus/olog/security/SessionFilter.java:122 | an encoding has no blank to trim |
| Security.BasicSchemeMatches | src/main/java/org/phoebus/olog/security/SessionFilter.java:120 | a "Basic " header passes the case-insensitive scheme test |
| Security.BasicHeaderDecodes | src/main/java/org/phoebus/olog/security/SessionFilter.java:120-124 | a Basic header gives back exactly the bytes encoded into it |
| Security.BasicCredentialsRoundTrip | src/main/java/org/phoebus/olog/security/SessionFilter.java:119-129 | a header built from any ASCII user name without ':' and password gives them back |
| Security.CredentialsWithoutColon | src/main/java/org/phoebus/olog/security/SessionFilter.java:101-106 | a header whose decoded text has no ':' throws as written and carries no credentials as intended |
| Security.AdminWithoutPasswordThrows | src/main/java/org/phoebus/olog/security/SessionFilter.java:101-106 | "Basic YWRtaW4=" throws as written and gives no credentials as intended |
| Security.AdminPassHeader | src/test/java/org/phoebus/olog/security/SessionFilterTest.java:109-111 | "Basic YWRtaW46YWRtaW5QYXNz" gives the user "admin" and the password "adminPass" |
| Security.EncodeAdminPass | src/test/java/org/phoebus/olog/security/SessionFilterTest.java:109 | "admin:adminPass" encodes to "YWRtaW46YWRtaW5QYXNz" |
| Security.FirstLiveCookie | src/main/java/org/phoebus/olog/security/SessionFilter.java:143-160 | the first SESSION cookie naming a stored, unexpired session, every cookie before it being passed over |
| Security.SessionFilter.constructor | src/main/java/org/phoebus/olog/security/SessionFilter.java:67-71 | the filter uses the given session repository and no authentication is set yet |
| Security.SessionFilter.GetAuthenticationFromCookie | src/main/java/org/phoebus/olog/security/SessionFilter.java:138-162 | null without cookies or without a live SESSION cookie, the store unchanged; otherwise the first live cookie's session has its access time set to now and gives its user and roles, no credentials |
| Security.SessionFilter.DoFilter | src/main/java/org/phoebus/olog/security/SessionFilter.java:94-117 | a live session cookie decides the context, and that session's last access is set to now and saved; otherwise the session store is unchanged, no credentials clear the context, credentials the manager accepts set it, refused ones leave it, and a bad encoding or decoded credentials without ":" throw |
| Security.NoCredentialsNoAuthentication | src/test/java/org/phoebus/olog/security/SessionFilterTest.java:115-125 | with neither a cookie nor a header nothing is authenticated |
| Security.StaleCookieSkipped | src/test/java/org/phoebus/olog/security/SessionFilterTest.java:87-101 | a SESSION cookie of a missing session does not stop the search for a later live one |
| Sessions.SessionOf | src/main/java/org/phoebus/olog/AuthenticationResource.java:194-201 | the session stored for a user, found under its own id and naming that user |
| Sessions.SessionRepository.constructor | src/main/java/org/phoebus/olog/AuthenticationResource.java:67-68 | the session store starts empty and well formed |
| Sessions.SessionOfUnique | src/main/java/org/phoebus/olog/AuthenticationResource.java:197-201 | in a store with one session per user, the first session found for the user is the one any of its ids leads to |
| Authentication.CookieMaxAge | src/main/java/org/phoebus/olog/AuthenticationResource.java:106-110 | a year for a negative timeout, otherwise sixty times the timeout as an int product |
| Authentication.NewSession | src/main/java/org/phoebus/olog/AuthenticationResource.java:209-212 | a new session records the user and the roles and expires exactly timeout minutes after its last access, never for a negative timeout |
| Authentication.CookieLastsAsLongAsSession | src/main/java/org/phoebus/olog/AuthenticationResource.java:106-110 | while the product fits an int, the cookie lives as long as the session may idle |
| Authentication.NegativeTimeoutNeverExpires | src/main/java/org/phoebus/olog/AuthenticationResource.java:106-107 | a negative timeout gives a cookie of one year and a session that never expires |
| Authentication.CookieMaxAgeWraps | src/main/java/org/phoebus/olog/AuthenticationResource.java:109 | past Integer.MAX_VALUE / 60 minutes the product wraps and the cookie gets a negative max-age |
| Authentication.PrunedWellFormed | src/main/java/org/phoebus/olog/AuthenticationResource.java:194-207 | looking up the user deletes at most an expired session of theirs and keeps one session per user |
| Authentication.LoginStoreWellFormed | src/main/java/org/phoebus/olog/AuthenticationResource.java:102-104 | a login keeps each session under its id and one session per user |
| Authentication.LoginReusesLiveSession | src/main/java/org/phoebus/olog/AuthenticationResource.java:197-205 | a user with a live session logs in to that session, which is saved with its access time set to now |
| Authentication.LoginReplacesExpiredSession | src/main/java/org/phoebus/olog/AuthenticationResource.java:201-213 | a user whose session has expired gets a new session and the old one is deleted |
| Authentication.RepeatedLoginKeepsSession | src/main/java/org/phoebus/olog/AuthenticationResource.java:186-214 | logging in again before the session expires gives the same session id and the roles of the first login |
| Authentication.CurrentUser | src/main/java/org/phoebus/olog/AuthenticationResource.java:146-183 | a live session cookie gives its user and roles; otherwise a "Bearer " header whose token is accepted gives its user; anything else is 404 |
| Authentication.LoginThenCurrentUser | src/main/java/org/phoebus/olog/AuthenticationResource.java:90-183 | right after a login the cookie finds the user with the session's roles, unless the session's idle limit is zero |
| Authentication.SessionBeforeBearer | src/main/java/org/phoebus/olog/AuthenticationResource.java:150-157 | a live session cookie decides the user whatever the Authorization header holds |
| Authentication.NoCookieNoUser | src/main/java/org/phoebus/olog/AuthenticationResource.java:182 | with neither a cookie nor a header there is no current user |
| Authentication.LowerCaseBearerIgnored | src/main/java/org/phoebus/olog/AuthenticationResource.java:163 | the scheme test is case-sensitive: "bearer " is not looked at |
| Authentication.LogoutEndsSession | src/main/java/org/phoebus/olog/AuthenticationResource.java:125-130 | after logout the cookie finds no session |
| Authentication.AuthenticationResource.constructor | src/main/java/org/phoebus/olog/AuthenticationResource.java:63-72 | the resource uses the given store and the configured timeout |
| Authentication.AuthenticationResource.FindOrCreateSession | src/main/java/org/phoebus/olog/AuthenticationResource.java:194-214 | returns the user's live session, or deletes an expired one and returns a new unsaved session; nothing else changes |
| Authentication.AuthenticationResource.Login | src/main/java/org/phoebus/olog/AuthenticationResource.java:90-115 | refused credentials give 401 and change nothing; otherwise the session is found or created, saved with its access time set to now, and the reply names the user, the roles and the session's cookie |
| Authentication.AuthenticationResource.Logout | src/main/java/org/phoebus/olog/AuthenticationResource.java:125-130 | the session the cookie names, if any, is deleted, and the reply is an empty body |
| Authentication.AuthenticationResource.GetCurrentUser | src/main/java/org/phoebus/olog/AuthenticationResource.java:146-183 | answers what CurrentUser says and changes nothing |
| RssFeed.LogUrl | src/main/java/org/phoebus/olog/RssFeedUtil.java:17-19 | the link of a log is the base URL, the log resource and "/" followed by the id, "null" for a missing id |
| RssFeed.LogUrlNamesId | src/main/java/org/phoebus/olog/RssFeedUtil.java:17-19 | the id comes back from the link |
| RssFeed.LogUrlInjective | src/main/java/org/phoebus/olog/RssFeedUtil.java:17-19 | two logs with different ids never share a link |
| RssFeed.ItemDescription | src/main/java/org/phoebus/olog/RssFeedUtil.java:41-47 | plain text holding the source when it is not empty, else the description when that is not empty, else no value |
| RssFeed.EpochMillis | src/main/java/org/phoebus/olog/RssFeedUtil.java:52 | Date.from keeps the instant in whole milliseconds, rounded down |
| RssFeed.TagNames | src/main/java/org/phoebus/olog/RssFeedUtil.java:29-37 | one category per tag of the set, holding the tag's name, in iteration order; the set holds one tag per name, so no name repeats |
| RssFeed.TagsCount | src/main/java/org/phoebus/olog/RssFeedUtil.java:29-37 | an iteration order of the tag set has one entry per tag |
| RssFeed.NamesOfDistinctTags | src/main/java/org/phoebus/olog/RssFeedUtil.java:29-37 | no two categories of an item hold the same tag name |
| RssFeed.FromLogDescribesLog | src/main/java/org/phoebus/olog/RssFeedUtil.java:21-55 | an item carries the log's title and owner, links to the log, names each tag once and nothing else, and is dated exactly when the log is |
| RssFeed.FromLogEntries | src/main/java/org/phoebus/olog/RssFeedUtil.java:57-67 | a channel of type rss_2.0 linking to the base URL |
| RssFeed.FeedOfConcat | src/main/java/org/phoebus/olog/RssFeedUtil.java:63 | the feed of two runs of logs lists the first run's items, then the second's |
| RssFeed.FeedItemsFollowLogs | src/main/java/org/phoebus/olog/RssFeedUtil.java:63-64 | item i of the feed is the item of log i: none dropped, added or moved |
| OlogClient.RStrip | python_client/olog_client.py:44 | rstrip('/') removes exactly the run of slashes at the end |
| OlogClient.RStripIdempotent | python_client/olog_client.py:44 | stripping a base URL twice strips nothing more |
| OlogClient.RStripTrailingRun | python_client/olog_client.py:44 | any number of trailing slashes on the base URL give the same client |
| OlogClient.LastSlash | python_client/olog_client.py:386 | the position of the last '/' of a path, or -1 |
| OlogClient.LastSlashIsLast | python_client/olog_client.py:386 | the '/' found is a '/' and none follows it |
| OlogClient.BasenameIsLastComponent | python_client/olog_client.py:386 | os.path.basename is the longest end of the path without a '/' |
| OlogClient.NoRequestHeadersSendsSession | python_client/olog_client.py:71 | a call without headers of its own sends the session's headers |
| OlogClient.ContentTypeSurvivesDeletion | python_client/olog_client.py:403-409 | deleting Content-Type from a copy of the session's headers removes nothing once requests merges them back |
| OlogClient.MultipartDropsContentType | python_client/olog_client.py:403-409 | with Content-Type passed as None, a multipart request carries every session header but Content-Type |
| OlogClient.Rename | python_client/olog_client.py:305-308 | p[new] = p.pop(old): the value moves to the new key and every other key keeps its value |
| OlogClient.SearchAliasesAsWritten | python_client/olog_client.py:305-308 | as written, from_date is sent as "from" and to_date as "to", and every other parameter as given |
| OlogClient.SearchAliases | python_client/olog_client.py:305-308 | corrected, from_date is sent as "start" and to_date as "end", and every other parameter as given |
| OlogClient.FromDateSentAsFrom | python_client/olog_client.py:305-306 | a lone from_date arrives as "from" as written |
| OlogClient.FromDateSentAsStart | python_client/olog_client.py:305-306 | a lone from_date arrives as "start" as corrected |
| OlogClient.FromDateIsPagingOffset | src/main/java/org/phoebus/olog/LogSearchUtil.java:232-250 | the service reads "from" as the paging offset: a date there is ignored and the search has no time range, whatever the clock reads |
| OlogClient.StartStep | src/main/java/org/phoebus/olog/LogSearchUtil.java:170-179 | a date under "start" that parses makes the search temporal, starting at the earlier of it and now |
| OlogClient.StartDateBoundsSearch | src/main/java/org/phoebus/olog/LogSearchUtil.java:79-179 | a date under "start" with no "end": the start is the earlier of the date and the later clock read, the end is the earlier clock read, and the search has that time range exactly when the start is not after the end; otherwise it is a 400 |
| OlogClient.FutureStartRefused | src/main/java/org/phoebus/olog/LogSearchUtil.java:293-318 | a start date in the future with no end is a 400 once the clock has moved between the two reads |
| OlogClient.CreateLogParams | python_client/olog_client.py:346-350 | markup is sent when non-empty and inReplyTo when it is not "-1", nothing else |
| OlogClient.HelpParams | python_client/olog_client.py:588 | the language is sent only when it is not English |
| OlogClient.NameObjects | python_client/olog_client.py:340 | one {"name": n} object per name, in order |
| OlogClient.LogData | python_client/olog_client.py:337-344 | the entry has exactly the six fields, the logbooks and tags as name objects, a null level when none is given |
| OlogClient.OverridesSetGivenFields | python_client/olog_client.py:437-446 | exactly the fields given are overwritten, each with its argument, tags as name objects |
| OlogClient.UpdateKeepsUnsetFields | python_client/olog_client.py:434-446 | the merged entry keeps every field read that is not given and takes every field given |
| OlogClient.UpdateWithNothingKeepsEntry | python_client/olog_client.py:434-452 | an update with no field given posts the entry as read |
| OlogClient.UpdateIdempotent | python_client/olog_client.py:437-446 | repeating an update changes nothing more |
| OlogClient.MergeFields | python_client/olog_client.py:437-446 | the assignments one by one build the merged entry |
| OlogClient.MimeType | python_client/olog_client.py:387 | the guessed type when there is one, else application/octet-stream |
| OlogClient.CollectFiles | python_client/olog_client.py:383-388 | one part per existing path, each the file's own part |
| OlogClient.CollectFilesConcat | python_client/olog_client.py:384-388 | the parts of two runs of paths are those of the first run, then those of the second |
| OlogClient.CollectFilesKeepsExisting | python_client/olog_client.py:384-388 | every existing path is collected |
| OlogClient.CollectFilesAllExist | python_client/olog_client.py:384-388 | when every path exists, one part per path in the order given |
| OlogClient.CollectFilesNoneExist | python_client/olog_client.py:384-388 | when no path exists nothing is collected |
| OlogClient.GatherFiles | python_client/olog_client.py:520-525 | the loop collects what CollectFiles says |
| OlogClient.FieldIndex | python_client/olog_client.py:400 | where a dict holds a key, or -1 when it does not |
| OlogClient.Assign | python_client/olog_client.py:400 | assigning a known key keeps its place and takes the new value; a new key goes last |
| OlogClient.SameFieldKeepsLast | python_client/olog_client.py:400 | assigning several parts of one field keeps only the last |
| OlogClient.OnlyLastFileSent | python_client/olog_client.py:397-400 | as written, the body holds the entry and only the last file |
| OlogClient.FirstOfTwoFilesDropped | python_client/olog_client.py:383-409 | of two existing files, the first is never sent |
| OlogClient.MultipartBody | python_client/olog_client.py:397-400 | corrected, the body is the entry followed by every file |
| OlogClient.EveryExistingFileSent | python_client/olog_client.py:383-409 | with the corrected body, every existing file is sent |
| OlogClient.Checked | python_client/olog_client.py:70-75 | a request fails when there is no answer or its status is 4xx or 5xx, otherwise the answer is returned |
| OlogClient.JsonOf | python_client/olog_client.py:77-94 | the JSON body of a successful answer, failing exactly when the request does |
| OlogClient.DeleteResult | python_client/olog_client.py:96-99 | true exactly for status 200 |
| OlogClient.Client.constructor | python_client/olog_client.py:31-56 | the base URL without trailing slashes, the session headers with Content-Type application/json and the client info, no credentials, nothing sent |
| OlogClient.Client.SetAuth | python_client/olog_client.py:58-60 | sets the credentials and changes nothing else |
| OlogClient.Client.MakeRequest | python_client/olog_client.py:62-75 | sends one request to the base URL followed by the endpoint, with the headers merged, and checks the answer |
| OlogClient.Client.PlainRequest | python_client/olog_client.py:77-94 | sends one request with the session's headers and checks the answer |
| OlogClient.Client.Multipart | python_client/olog_client.py:403-409 | the session's Content-Type is among the headers of a multipart request, unchanged |
| OlogClient.Client.MultipartRequest | python_client/olog_client.py:403-409 | sends one multipart request with the session's headers, Content-Type application/json included, and checks the answer |
| OlogClient.Client.Delete | python_client/olog_client.py:96-99 | sends one DELETE and answers true exactly for status 200 |
| OlogClient.Client.SearchLogs | python_client/olog_client.py:289-310 | sends one GET of the search with from_date renamed "from" and to_date renamed "to" |
| OlogClient.Client.CreateLog | python_client/olog_client.py:320-352 | sends one PUT of the entry with its query parameters |
| OlogClient.Client.CreateLogWithFiles | python_client/olog_client.py:354-415 | sends one multipart PUT holding the entry and only the last existing file |
| OlogClient.Client.UpdateLog | python_client/olog_client.py:417-452 | reads the entry; a failed read fails, an entry that is not an object with fields given raises TypeError, otherwise the merged entry is posted |
| OlogClient.Client.UploadAttachment | python_client/olog_client.py:460-509 | a missing file raises before any request; otherwise one POST with the file and its form data, and a second POST of three parts when the first fails, each with the session's JSON Content-Type |
| OlogClient.Client.UploadMultipleAttachments | python_client/olog_client.py:511-539 | sends one multipart POST with a part per existing file and the session's JSON Content-Type |
| OlogClient.Client.GetHelp | python_client/olog_client.py:580-590 | sends one GET of the topic with the language unless English and returns the text |

## Left out

- Elasticsearch and MongoDB repositories, the sequence generator and the attachment store are left out: they are I/O. Each repository is a map inside its resource class, and generated ids and object ids are parameters.
- Spring wiring is left out. That covers security configurations, LDAP, embedded LDAP and Active Directory providers, JWT and OAuth filters, websocket push, notifiers, property providers and the info and configuration resources. These are configuration or foreign libraries. The JWT check of `getCurrentUser` is the parameter `verify`, and the authentication manager is a parameter too.
- Concurrency is left out: the `synchronized` lock of `findOrCreateSession` and of grouping, and the asynchronous property providers and notifiers. Each request is one sequential step.
- Markup cleaning (`CommonmarkCleaner`, `CommonmarkPreprocessor`) is left out; it is a third-party library. `createLog` keeps the description as sent.
- Attachment contents are left out. An upload is its name, content type and size, and Tika's content-type detection is a parameter.
- Java object identity and aliasing are left out. Entities are values, and `equals`/`hashCode` are modelled where the source defines them.
- TimeParser.Carry: fractional quantities use exact decimal fractions, not Java doubles. Where double rounding of `fraction * factor + 0.5` would land on the other side of an integer, the source may carry one less or one more.
- TimeParser.ParseTemporalAmount: follows the code as written, including "millis" read as minutes; the intended unit mapping is stated beside it (see Findings).
- LogEntryGroupHelper.FindGroupProperty: the iteration order of a hash set is not fixed by Java. The model may visit the properties in any order, so with two group properties either may be returned.
- LogEntryGroupHelper.FindGroupProperty: a log whose property set is null, which `setProperties(null)` allows, makes the source throw NullPointerException when it tests the empty result. The model's log always holds a property set, so that path is not modelled.
- RssFeed.FromLog: the tag order is a parameter for the same reason.
- RssFeed.EpochMillis: `Date.from` throws for instants beyond the range of a long of milliseconds; that case is not modelled.
- JavaText.Upper, JavaText.Lower and JavaText.EqualsIgnoreCase map the case of ASCII letters only. Java's `toUpperCase`, `toLowerCase` and `equalsIgnoreCase` also map other Unicode letters, and `toUpperCase` can lengthen a string ("ß" becomes "SS"). Authorization.GroupRole, LogTemplates.NameClash, SearchUtil.SortOf and the key matching of SearchUtil.ApplyParameter inherit this.
- Security.BytesText: decodes each byte as the character of its code, which is UTF-8 only for ASCII bytes. Multi-byte sequences and replacement characters are not modelled.
- Sessions: Spring's `findById` also deletes an expired session when it looks it up. The model only reports the session as missing and keeps it stored.
- LogTemplates.LogTemplateResource.ScanForDuplicateIntended: the corrected scan skips a stored template whose name is null. The code as written throws NullPointerException there, which `DuplicateScanAsWritten` keeps.
- Levels.LevelsResource.ValidateLevelRequest and LogTemplates.LogTemplateResource.ScanForDuplicate: the repository's listing order is not modelled. The loops as written only look at the first element listed, so the model lets that element be any stored one.
- SearchUtil.BuildSearchRequest: every "start" parameter starts from the same clock read `startClock`. In the source each one reads the clock anew, so two keys that both strip to "start" may start from different times.
- `getLogTemplate` of `LogTemplateResource` is left out: it is a lookup by id whose `Optional.get()` throws NoSuchElementException for a missing id, and it is not among the core operations.
- Client: `get_logbooks`, `create_logbook`, `get_tags`, `create_tag`, `get_properties`, `create_property`, `get_levels`, `create_level`, `get_templates`, `create_template`, their delete and batch forms, `get_log`, `get_archived_log`, `group_logs`, `download_attachment`, `download_attachment_by_id`, `close` and the context-manager methods are left out. They are each one `_get_json`, `_put_json`, `_post_json` or `_delete` on a fixed endpoint, and `PlainRequest` and `Delete` model that call.
- Client: the `verify` and `timeout` keyword arguments, opening and closing file handles, and the message text of the wrapped exception are left out; these are I/O details.
- The legacy packages `gov.bnl.olog` and `edu.msu.nscl.olog` are left out; they are superseded copies.

## Findings

| source | as written | input that shows it | evidently intended | confidence | as-written member | corrected member |
|---|---|---|---|---|---|---|
| src/main/java/org/phoebus/olog/LevelsResource.java:155-163 | `existing.iterator()` is called afresh on every round, so the loop only ever looks at the first stored level and never ends when that level does not reject | one stored level "Info" (not default), then a new level "Problem" | visit every stored level once and reject a second default | not executed | Levels.SecondLevelHangs | Levels.LevelsResource.ValidateLevelIntended |
| src/main/java/org/phoebus/olog/LogTemplateResource.java:84-89 | the duplicate scan uses a fresh iterator on every round, so with a stored template that does not clash the loop never ends | a stored template "shift", then a new template "Beam" | visit every stored template once | not executed | LogTemplates.SecondTemplateHangs | LogTemplates.LogTemplateResource.ScanForDuplicateIntended |
| src/main/java/org/phoebus/olog/LogTemplateResource.java:86 | the stored name is compared, case-sensitively, with the new name lower-cased | a stored "Shift", then a new "Shift" | a clash ignoring case, as the comment above the loop says | not executed | LogTemplates.SameNameTwiceAccepted | LogTemplates.LogTemplateResource.ScanForDuplicateIntended |
| src/main/java/org/phoebus/util/time/TimeParser.java:120-128 | "mi" is tested before "ms", so "millis" is read as minutes | "5 millis" | five milliseconds | not executed | TimeParserExamples.MillisReadAsMinutes | TimeParserExamples.IntendedUnitsNamed |
| src/main/java/org/phoebus/util/time/TimeParser.java:220-222 | a Duration with no whole seconds is written "now", whatever its milliseconds | a Duration of 500 ms | "500 ms" | not executed | TimeParserFormat.SubSecondWrittenNow | TimeParserFormat.IntendedDurationRoundTrip |
| src/main/java/org/phoebus/util/time/TimeParser.java:224-252 | the seconds are cast to int and multiplied in int, which overflows | a Duration of 24856 days | "24856 days" | not executed | TimeParserFormat.OverflowAtDays | TimeParserFormat.IntendedDurationRoundTrip |
| src/main/java/org/phoebus/olog/LogResource.java:318-333 | the file loop runs over the result of the type check, which is null for an empty file array | an entry without attachment metadata sent with an empty `files` array | attach nothing | not executed | Logs.EmptyFileArrayFailsAfterSave | Logs.FilesToAttach |
| src/main/java/org/phoebus/olog/AuthorizationService.java:54-60 | the logbook groups are bound to the key "property-groups" | "property-groups" set to "olog-properties" | the logbook groups read from "logbook-groups" | not executed | Authorization.PropertySettingMovesLogbookRole | Authorization.ConfiguredGroups |
| src/main/java/org/phoebus/olog/security/SessionFilter.java:101-106 | the second part of the split is read without a check | the header "Basic YWRtaW4=" ("admin" with no ':') | no credentials | not executed | Security.AdminWithoutPasswordThrows | Security.BasicCredentials |
| python_client/olog_client.py:397-400 | `dict(files)` keeps only the last file, since all share the key "files" | two existing files | send every file | not executed | OlogClient.FirstOfTwoFilesDropped | OlogClient.EveryExistingFileSent |
| python_client/olog_client.py:403-409 | deleting Content-Type from a copy of the session headers removes nothing, because `requests` merges the session headers back | any multipart call | send the multipart body without the JSON Content-Type | not executed | OlogClient.ContentTypeSurvivesDeletion | OlogClient.MultipartDropsContentType |
| python_client/olog_client.py:305-306 | from_date is sent as "from", which the service reads as the paging offset | search_logs(from_date="2024-01-01") | a start time, which the service reads from "start" | not executed | OlogClient.FromDateIsPagingOffset | OlogClient.StartDateBoundsSearch |
