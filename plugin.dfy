/**
 * The plugin object: it holds the options array in memory, rewrites it when
 * the host runs the validation callback on a settings submission, and keeps
 * the daily job registered with the host's scheduler.
 */
module Plugin {
  import opened Settings
  import opened Scheduler

  class UserDeleter {
    var options: Options

    /** Merges what the host's option store holds over the defaults. Hook and
        menu registration are host wiring and are not part of this model. */
    constructor (stored: Options)
      ensures options == Loaded(stored)
    {
      options := Merge(Defaults(), stored);
    }

    /** The validation callback: overwrites 'enabled' and 'roles' in the held
        options from the submitted form array and the host's editable roles,
        and returns the options it holds afterwards, for the host to store. */
    method Validate(input: map<string, Posted>, editable: seq<RoleKey>) returns (saved: Options)
      modifies this
      ensures options == Validated(old(options), input, editable)
      ensures saved == options
    {
      options := options[EnabledKey := Flag(EnabledKey in input)];
      ghost var base := options;
      options := options[RolesKey := RoleList([])];
      if RolesKey in input && input[RolesKey].Fields? {
        var submitted := input[RolesKey].fields;
        var i := 0;
        while i < |editable|
          invariant 0 <= i <= |editable|
          invariant options == base[RolesKey := RoleList(Kept(editable[..i], submitted.Keys))]
        {
          var key := editable[i];
          KeptStep(editable, i, submitted.Keys);
          if key in submitted {
            options := options[RolesKey := RoleList(options[RolesKey].keys + [key])];
          }
          i := i + 1;
        }
        assert editable[..i] == editable;
      } else {
        KeptNone(editable, {});
      }
      saved := options;
    }

    /** Registers the daily event unless one is already pending. */
    method Schedule(cron: Cron)
      modifies cron
      ensures cron.pending == Next(Request)
      ensures cron.registrations == old(cron.registrations) + (if Registers(old(cron.pending), Request) then 1 else 0)
    {
      var scheduled := cron.NextScheduled();
      if !scheduled {
        cron.ScheduleDaily();
      }
    }

    /** On deactivation, clears every pending event of the hook. */
    method Deactivate(cron: Cron)
      modifies cron
      ensures cron.pending == Next(Deactivation)
      ensures cron.registrations == old(cron.registrations)
    {
      cron.ClearScheduledHook();
    }
  }
}
