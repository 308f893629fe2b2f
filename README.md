# User Deleter — settings and scheduling model

User Deleter is a WordPress plugin meant to delete users, and their content,
after a period of inactivity. The code that exists is a settings object: the
`User_Deleter` class in `index.php`. It holds the plugin's options array,
merges the stored options over its defaults, validates submissions of the
settings form, and keeps a daily job registered with the host's scheduler.
The deletion job itself is an empty stub.

The model has three modules:

- `Settings` (`settings.dfy`): the options array, its defaults, the
  `array_merge` done at construction, and `Validated`, the pure meaning of the
  validation callback. Lemmas state what it stores. The stored roles are the
  host's editable roles whose key was submitted, in listing order. Saving
  twice, or reloading what was saved, changes nothing.
- `Scheduler` (`scheduler.dfy`): the host's scheduled-event store. It is
  reduced to a class `Cron` with one piece of state: whether an event for the
  `user_deleter` hook is pending. A trace model of requests and deactivations
  bounds how many events get registered.
- `Plugin` (`plugin.dfy`): the class `UserDeleter` with its `options`
  field. It has the constructor, `Validate`, `Schedule` and `Deactivate`.
  `Validate` keeps the source's loop, which appends kept roles one at a time.
  Its postcondition ties the new options to `Settings.Validated`.

Host calls become parameters. What `get_option` returns is the
constructor's `stored` argument, and what `get_editable_roles` lists is the
`editable` argument, given as its keys in listing order. The scheduler
functions are the methods of `Scheduler.Cron`.

The form's posted array is a `map<string, Posted>`. When nothing at all is
posted, WordPress passes `null` as `$input`. Both `isset($input['enabled'])`
and `is_array($input['roles'])` are then false, just as for an empty array,
so the model uses the empty map for that case.

## Model

| member | source | states |
|---|---|---|
| `Settings.Defaults` | index.php:18-25 | the defaults are exactly `enabled` off and `roles` = author, contributor, subscriber |
| `Settings.Merge` | index.php:34 | `array_merge` on string keys: every key of either array; a later value wins; a key only in the earlier array keeps that value |
| `Settings.LoadedOptions` | index.php:18-25 | after loading, a stored value overrides its default. A missing key falls back to `false` or the default role list. A stored role list replaces the default list whole. Every stored key is kept |
| `Settings.LoadedNothing` | index.php:34 | with nothing stored (`get_option` returns `array()`), the options are exactly the defaults |
| `Settings.SavedOptionsReload` | index.php:34 | options that validation returned are loaded back unchanged by the merge over the defaults |
| `Settings.Kept` | index.php:64-67 | the loop never keeps more roles than the listing has |
| `Settings.KeptMembers` | index.php:64-67 | a key is kept exactly when it is listed and submitted |
| `Settings.KeptStep` | index.php:64-67 | one more listed role is appended after the others exactly when its key is submitted |
| `Settings.KeptPreservesOrder` | index.php:64-67 | the kept roles are a subsequence of the listing, so they keep its order |
| `Settings.KeptDistinct` | index.php:64-67 | a listing without repeated keys gives kept roles without repeats |
| `Settings.KeptDependsOnlyOnListed` | index.php:64-65 | two submissions that agree on every listed key keep the same roles. Unlisted submitted keys have no effect |
| `Settings.KeptAll` | index.php:64-67 | submitting every listed key keeps the whole listing, in order |
| `Settings.KeptNone` | index.php:64-67 | submitting no listed key keeps nothing |
| `Settings.ValidatedEnabled` | index.php:60 | `enabled` becomes `true` exactly when the submission has an `enabled` field, and `false` otherwise. The field's text is ignored |
| `Settings.ValidatedRoles` | index.php:62-67 | `roles` becomes a list. A key is in it exactly when it is an editable role and a key of the submitted `roles` array |
| `Settings.ValidatedRolesOrdered` | index.php:64-67 | the stored roles follow the listing order, without repeats when the listing has none |
| `Settings.ValidatedRolesCleared` | index.php:62-63 | without a `roles` array in the submission, `roles` becomes empty, whatever it held before |
| `Settings.ValidatedKeepsOtherOptions` | index.php:59-71 | no option is removed, and only `enabled` and `roles` may be added. Every other option keeps its value |
| `Settings.ValidatedIdempotent` | index.php:59-71 | validating the same submission again stores the same options |
| `Settings.ValidatedExample` | index.php:59-71 | a submission with no `enabled` field, the roles `editor` (text "0") and `bogus`, and an `extra` field the plugin has no setting for, against the roles author and editor, stores `enabled` off and `roles` = [editor]. A stored `extra` option is left as it was |
| `Settings.ResubmissionFields` | index.php:78-106 | the page posts `enabled` exactly when the stored value is truthy. It posts a listed role's key exactly when that role is in the stored `roles` list |
| `Settings.ResubmittingKeepsOptions` | index.php:59-72 | after a save, submitting the settings page as it is shown stores the same options again |
| `Scheduler.Cron.NextScheduled` | index.php:38 | reports whether an event for the hook is pending |
| `Scheduler.Cron.ScheduleDaily` | index.php:39 | afterwards an event is pending and one more has been registered |
| `Scheduler.Cron.ClearScheduledHook` | index.php:44 | afterwards no event for the hook is pending |
| `Scheduler.RunFollowsLastTrigger` | index.php:37-45 | after any sequence of requests and deactivations, an event is pending exactly when the last one was a request. With no triggers, the state is unchanged |
| `Scheduler.RegistrationsBounded` | index.php:37-41 | events registered, plus one if an event was already pending, are at most one more than the number of deactivations |
| `Scheduler.RequestsRegisterOnce` | index.php:37-41 | starting with nothing pending, requests without a deactivation register exactly one event |
| `Plugin.UserDeleter.constructor` | index.php:34 | the options held are the stored options merged over the defaults |
| `Plugin.UserDeleter.Validate` | index.php:59-72 | the held options become `Validated` of the old options, the submission and the editable roles. The returned array is exactly what is held |
| `Plugin.UserDeleter.Schedule` | index.php:37-41 | afterwards an event is pending. One is registered only when none was pending, so a second call registers nothing |
| `Plugin.UserDeleter.Deactivate` | index.php:43-45 | afterwards no event is pending, and no event is registered |

## Left out

- The inactive-user deletion (index.php:47-49) is an empty method in the source, so there is nothing to model. The plugin header (index.php:4) promises deletion after a period of inactivity. The code has no last-login tracking, no inactivity query, no day threshold and no `days` setting.
- `Scheduler.Cron.ScheduleDaily` always succeeds. The host's `wp_schedule_event` can fail and return false, and `schedule` (index.php:38-40) ignores that result. So `Plugin.UserDeleter.Schedule` promises a pending event only on the assumption that the host call succeeds.
- The notice or warning that PHP raises at index.php:63 is not modelled. PHP raises it when `$input` has no `roles` key or is `null`. The model keeps only the outcome: `is_array` is false, so the stored roles become empty.
- Rendering the settings page (index.php:74-126) is not modelled. The exceptions are the two "checked" tests, at lines 83 and 98. They are used only to state what resubmitting the page posts.
- Hook, setting, section, field and menu registration (index.php:27-33, 51-57, 108-116) is host wiring. So are the empty `admin_notices` and the `debug` helper (index.php:10-14).
- The event's start time `mktime(0, 0, 0)` and its daily recurrence (index.php:39) depend on the clock. The host also runs the event later. Only "pending or not" is modelled.
- `Scheduler.Cron` holds only the plugin's own hook. Other hooks, and several events for one hook, are not modelled.
- `Settings.Merge` treats every key as a string key. PHP's `array_merge` renumbers integer keys instead of overriding them. The options written by this plugin have only string keys.
- The order of keys in the options array is not modelled, because no code reads it. The order of the stored `roles` list is modelled.
- `get_option` returning something that is not an array is not modelled. Neither is a scalar `$input`. The stored values are ones that `validate` returned, and the form posts an array or nothing.
- `isset` is false for a `null` value as well as for a missing key. Posted form values are never `null`, so the model tests key presence only.
- `Settings.ShownRoles` uses exact membership where `in_array` uses PHP's loose comparison, so two different numeric strings can compare equal. WordPress role keys are not numeric strings.
