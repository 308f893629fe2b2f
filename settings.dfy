/**
 * The settings of the User Deleter plugin: the stored options array, its
 * defaults, how stored options are merged over the defaults when the plugin
 * object is built, and the pure meaning of the validation callback that the
 * host runs on every submission of the settings form.
 *
 * PHP arrays are modelled by what each use needs: the options array is a map
 * from option name to value; a posted form array is a map from field name to
 * posted value; the host's editable-roles listing is the sequence of its keys.
 */
module Settings {

  type RoleKey = string

  /** A value posted by the settings form: one text field, or an array of
      fields (PHP's integer array keys are written in decimal, which PHP
      treats as the same key). */
  datatype Posted = Text(text: string) | Fields(fields: map<string, Posted>)

  /** One entry of the stored options array. */
  datatype Setting =
    | Flag(on: bool)                // the value validation gives 'enabled'
    | RoleList(keys: seq<RoleKey>)  // the value validation gives 'roles': a PHP list of role keys
    | Other(raw: string)            // any other stored value, which the plugin only carries along

  type Options = map<string, Setting>

  const EnabledKey: string := "enabled"
  const RolesKey: string := "roles"

  const DefaultRoles: seq<RoleKey> := ["author", "contributor", "subscriber"]

  /** The class's `$defaults` array. */
  function Defaults(): (d: Options)
    ensures d.Keys == {EnabledKey, RolesKey}
    ensures d[EnabledKey] == Flag(false) && d[RolesKey] == RoleList(DefaultRoles)
  {
    map[EnabledKey := Flag(false), RolesKey := RoleList(DefaultRoles)]
  }

  /** PHP's array_merge of two string-keyed arrays: every key of either, and
      for a key in both, the value of the later array. */
  function Merge(earlier: Options, later: Options): (r: Options)
    ensures r.Keys == earlier.Keys + later.Keys
    ensures forall k :: k in later ==> r[k] == later[k]
    ensures forall k :: k in earlier && k !in later ==> r[k] == earlier[k]
  {
    earlier + later
  }

  /** The options the plugin object holds after construction, given what the
      host's option store returned for 'user_deleter' (empty when nothing is
      stored). */
  function Loaded(stored: Options): Options
  {
    Merge(Defaults(), stored)
  }

  /** The known roles, in listing order, whose key is among `submitted`. */
  function Kept(listing: seq<RoleKey>, submitted: set<string>): (r: seq<RoleKey>)
    ensures |r| <= |listing|
  {
    if listing == [] then []
    else
      var n := |listing| - 1;
      Kept(listing[..n], submitted) + (if listing[n] in submitted then [listing[n]] else [])
  }

  /** A role is kept exactly when it is listed and its key is submitted. */
  lemma {:induction false} KeptMembers(listing: seq<RoleKey>, submitted: set<string>, x: string)
    ensures x in Kept(listing, submitted) <==> x in listing && x in submitted
  {
    if listing != [] {
      var n := |listing| - 1;
      KeptMembers(listing[..n], submitted, x);
      assert listing == listing[..n] + [listing[n]];
    }
  }

  /** Walking the listing one role further appends that role to the kept
      ones exactly when its key is submitted. */
  lemma KeptStep(listing: seq<RoleKey>, i: nat, submitted: set<string>)
    requires i < |listing|
    ensures listing[i] in submitted ==>
              Kept(listing[..i + 1], submitted) == Kept(listing[..i], submitted) + [listing[i]]
    ensures listing[i] !in submitted ==>
              Kept(listing[..i + 1], submitted) == Kept(listing[..i], submitted)
  {
    assert listing[..i + 1][..i] == listing[..i];
    var before := Kept(listing[..i], submitted);
    assert before + [] == before;
  }

  /** The role keys the submission selects, if its 'roles' field is an array. */
  function SubmittedRoleKeys(input: map<string, Posted>): set<string>
  {
    if RolesKey in input && input[RolesKey].Fields? then input[RolesKey].fields.Keys else {}
  }

  /** The options array that validation stores and returns, given the options
      held before, the submitted form array and the host's editable roles. */
  function Validated(current: Options, input: map<string, Posted>, editable: seq<RoleKey>): Options
  {
    current[EnabledKey := Flag(EnabledKey in input)]
           [RolesKey := RoleList(Kept(editable, SubmittedRoleKeys(input)))]
  }

  // ---------------------------------------------------------------------
  // Order and uniqueness of the kept roles

  /** `t` is obtained from `s` by deleting elements: some strictly increasing
      choice of positions of `s` spells out `t`. */
  ghost predicate IsSubsequence(t: seq<RoleKey>, s: seq<RoleKey>)
  {
    exists pos: seq<nat> ::
      && |pos| == |t|
      && (forall i :: 0 <= i < |pos| ==> pos[i] < |s| && t[i] == s[pos[i]])
      && (forall i, j :: 0 <= i < j < |pos| ==> pos[i] < pos[j])
  }

  predicate Distinct(s: seq<RoleKey>)
  {
    forall i, j :: 0 <= i < j < |s| ==> s[i] != s[j]
  }

  /** The positions in the listing of the roles that Kept keeps. */
  function KeptPositions(listing: seq<RoleKey>, submitted: set<string>): (pos: seq<nat>)
    ensures |pos| == |Kept(listing, submitted)|
    ensures forall i :: 0 <= i < |pos| ==>
              pos[i] < |listing| && listing[pos[i]] == Kept(listing, submitted)[i]
    ensures forall i, j :: 0 <= i < j < |pos| ==> pos[i] < pos[j]
  {
    if listing == [] then []
    else
      var n := |listing| - 1;
      KeptPositions(listing[..n], submitted) + (if listing[n] in submitted then [n] else [])
  }

  /** Kept roles keep the relative order of the listing. */
  lemma KeptPreservesOrder(listing: seq<RoleKey>, submitted: set<string>)
    ensures IsSubsequence(Kept(listing, submitted), listing)
  {
    var pos := KeptPositions(listing, submitted);
    assert |pos| == |Kept(listing, submitted)|;
  }

  /** A listing without repeated keys yields kept roles without repeats. */
  lemma KeptDistinct(listing: seq<RoleKey>, submitted: set<string>)
    requires Distinct(listing)
    ensures Distinct(Kept(listing, submitted))
  {
    var r := Kept(listing, submitted);
    var pos := KeptPositions(listing, submitted);
    forall i, j | 0 <= i < j < |r| ensures r[i] != r[j] {
      assert listing[pos[i]] == r[i] && listing[pos[j]] == r[j] && pos[i] < pos[j];
    }
  }

  /** Only which listed roles are submitted matters, not the rest of the
      submitted keys. */
  lemma {:induction false} KeptDependsOnlyOnListed(listing: seq<RoleKey>, a: set<string>, b: set<string>)
    requires forall i :: 0 <= i < |listing| ==> (listing[i] in a <==> listing[i] in b)
    ensures Kept(listing, a) == Kept(listing, b)
  {
    if listing != [] {
      var n := |listing| - 1;
      assert forall i :: 0 <= i < n ==> listing[..n][i] == listing[i];
      KeptDependsOnlyOnListed(listing[..n], a, b);
    }
  }

  /** Submitting every listed role keeps the whole listing. */
  lemma {:induction false} KeptAll(listing: seq<RoleKey>, submitted: set<string>)
    requires forall i :: 0 <= i < |listing| ==> listing[i] in submitted
    ensures Kept(listing, submitted) == listing
  {
    if listing != [] {
      var n := |listing| - 1;
      assert forall i :: 0 <= i < n ==> listing[..n][i] == listing[i];
      KeptAll(listing[..n], submitted);
      assert listing == listing[..n] + [listing[n]];
    }
  }

  /** Submitting no listed role keeps nothing. */
  lemma {:induction false} KeptNone(listing: seq<RoleKey>, submitted: set<string>)
    requires forall i :: 0 <= i < |listing| ==> listing[i] !in submitted
    ensures Kept(listing, submitted) == []
  {
    if listing != [] {
      var n := |listing| - 1;
      assert forall i :: 0 <= i < n ==> listing[..n][i] == listing[i];
      KeptNone(listing[..n], submitted);
    }
  }

  // ---------------------------------------------------------------------
  // What validation stores

  /** 'enabled' is switched on exactly when the submission has an 'enabled'
      field, whatever its text. */
  lemma ValidatedEnabled(current: Options, input: map<string, Posted>, editable: seq<RoleKey>)
    ensures EnabledKey in Validated(current, input, editable)
    ensures Validated(current, input, editable)[EnabledKey] == Flag(true) <==> EnabledKey in input
    ensures Validated(current, input, editable)[EnabledKey] == Flag(false) <==> EnabledKey !in input
  {
  }

  /** A role is stored exactly when the host lists it as editable and the
      submission's 'roles' array has its key; submitted keys the host does not
      list are dropped. */
  lemma ValidatedRoles(current: Options, input: map<string, Posted>, editable: seq<RoleKey>, x: string)
    ensures RolesKey in Validated(current, input, editable)
    ensures Validated(current, input, editable)[RolesKey].RoleList?
    ensures x in Validated(current, input, editable)[RolesKey].keys <==>
              && x in editable
              && RolesKey in input && input[RolesKey].Fields?
              && x in input[RolesKey].fields
  {
    KeptMembers(editable, SubmittedRoleKeys(input), x);
  }

  /** The stored roles follow the host's listing order and, when the listing
      has no repeated key, hold no repeats. */
  lemma ValidatedRolesOrdered(current: Options, input: map<string, Posted>, editable: seq<RoleKey>)
    ensures IsSubsequence(Validated(current, input, editable)[RolesKey].keys, editable)
    ensures Distinct(editable) ==> Distinct(Validated(current, input, editable)[RolesKey].keys)
  {
    KeptPreservesOrder(editable, SubmittedRoleKeys(input));
    if Distinct(editable) {
      KeptDistinct(editable, SubmittedRoleKeys(input));
    }
  }

  /** Without a 'roles' array in the submission, the stored roles are emptied,
      whatever they were before. */
  lemma ValidatedRolesCleared(current: Options, input: map<string, Posted>, editable: seq<RoleKey>)
    requires !(RolesKey in input && input[RolesKey].Fields?)
    ensures Validated(current, input, editable)[RolesKey] == RoleList([])
  {
    KeptNone(editable, SubmittedRoleKeys(input));
  }

  /** Options other than 'enabled' and 'roles' are carried over unchanged,
      and no other option appears. */
  lemma ValidatedKeepsOtherOptions(current: Options, input: map<string, Posted>, editable: seq<RoleKey>)
    ensures Validated(current, input, editable).Keys == current.Keys + {EnabledKey, RolesKey}
    ensures forall k :: k in current && k != EnabledKey && k != RolesKey ==>
              Validated(current, input, editable)[k] == current[k]
  {
  }

  /** Submitting the same form twice stores the same options as submitting it once. */
  lemma ValidatedIdempotent(current: Options, input: map<string, Posted>, editable: seq<RoleKey>)
    ensures Validated(Validated(current, input, editable), input, editable) == Validated(current, input, editable)
  {
  }

  /** A submission with disabled deletion, one known role, one role the host
      does not know and a field the plugin has no setting for: 'enabled' is
      off, only the known role is kept, and a stored option of that name is
      left as it was. The text of a role field does not matter: "0" selects. */
  lemma ValidatedExample(extra: Setting)
    ensures var input := map[RolesKey := Fields(map["editor" := Text("0"), "bogus" := Text("1")]),
                             "extra" := Text("abc")];
            Validated(map["extra" := extra], input, ["author", "editor"])
              == map["extra" := extra, EnabledKey := Flag(false), RolesKey := RoleList(["editor"])]
  {
    var submitted: set<string> := {"editor", "bogus"};
    var listing: seq<RoleKey> := ["author", "editor"];
    assert listing[..1] == ["author"] && ["author"][..0] == [];
    assert "author" !in submitted;
    assert Kept(["author"], submitted) == [];
    assert Kept(listing, submitted) == ["editor"];
    var input := map[RolesKey := Fields(map["editor" := Text("0"), "bogus" := Text("1")]),
                     "extra" := Text("abc")];
    assert SubmittedRoleKeys(input) == submitted;
    assert EnabledKey !in input;
    assert Validated(map["extra" := extra], input, listing)
      == map["extra" := extra][EnabledKey := Flag(false)][RolesKey := RoleList(["editor"])];
  }

  // ---------------------------------------------------------------------
  // Loading stored options

  /** A stored value overrides the default of the same key; a key missing from
      storage falls back to its default; a stored role list replaces the
      default list as a whole. */
  lemma LoadedOptions(stored: Options)
    ensures Loaded(stored).Keys == stored.Keys + {EnabledKey, RolesKey}
    ensures Loaded(stored)[EnabledKey] == if EnabledKey in stored then stored[EnabledKey] else Flag(false)
    ensures Loaded(stored)[RolesKey] == if RolesKey in stored then stored[RolesKey] else RoleList(DefaultRoles)
    ensures forall k :: k in stored ==> Loaded(stored)[k] == stored[k]
  {
  }

  /** With nothing stored, the plugin starts disabled with the three default roles. */
  lemma LoadedNothing()
    ensures Loaded(map[]) == map[EnabledKey := Flag(false), RolesKey := RoleList(["author", "contributor", "subscriber"])]
  {
  }

  /** Options that validation stored are loaded back exactly. */
  lemma SavedOptionsReload(current: Options, input: map<string, Posted>, editable: seq<RoleKey>)
    ensures Loaded(Validated(current, input, editable)) == Validated(current, input, editable)
  {
  }

  // ---------------------------------------------------------------------
  // The settings page shown back to the administrator

  /** PHP truthiness of a stored value, as the 'enabled' checkbox tests it. */
  predicate Truthy(v: Setting)
  {
    match v
    case Flag(on) => on
    case RoleList(keys) => keys != []
    case Other(raw) => raw != "" && raw != "0"
  }

  /** The roles whose checkbox the page shows checked. */
  function ShownRoles(options: Options): set<string>
  {
    if RolesKey in options && options[RolesKey].RoleList? then set x | x in options[RolesKey].keys else {}
  }

  /** What the browser posts when the page is submitted as shown: an 'enabled'
      field when that box is checked, and a 'roles' array holding the key of
      every listed role whose box is checked (none at all when no role box is
      checked). A checked box without a value attribute posts "on". */
  function Resubmission(options: Options, editable: seq<RoleKey>): map<string, Posted>
  {
    var enabled: map<string, Posted> :=
      if EnabledKey in options && Truthy(options[EnabledKey]) then map[EnabledKey := Text("on")] else map[];
    var checked := map x | x in editable && x in ShownRoles(options) :: Text("on");
    if checked == map[] then enabled else enabled[RolesKey := Fields(checked)]
  }

  /** The resubmitted form has the 'enabled' field exactly when that box is
      shown checked, and has a listed role's key exactly when its box is. */
  lemma ResubmissionFields(options: Options, editable: seq<RoleKey>)
    ensures EnabledKey in Resubmission(options, editable) <==>
              EnabledKey in options && Truthy(options[EnabledKey])
    ensures forall x :: x in editable ==>
              (x in SubmittedRoleKeys(Resubmission(options, editable)) <==> x in ShownRoles(options))
  {
    var checked := map x | x in editable && x in ShownRoles(options) :: Text("on");
    if checked == map[] {
      forall x | x in editable ensures x !in ShownRoles(options) {
        assert x in ShownRoles(options) ==> x in checked;
      }
    }
  }

  /** Saving the settings page unchanged after a save keeps the options as they are. */
  lemma ResubmittingKeepsOptions(current: Options, input: map<string, Posted>, editable: seq<RoleKey>)
    ensures var saved := Validated(current, input, editable);
            Validated(saved, Resubmission(saved, editable), editable) == saved
  {
    var saved := Validated(current, input, editable);
    var keys := SubmittedRoleKeys(input);
    var again := Resubmission(saved, editable);
    ResubmissionFields(saved, editable);
    assert saved[EnabledKey] == Flag(EnabledKey in input);
    forall i | 0 <= i < |editable|
      ensures editable[i] in SubmittedRoleKeys(again) <==> editable[i] in keys
    {
      KeptMembers(editable, keys, editable[i]);
    }
    KeptDependsOnlyOnListed(editable, SubmittedRoleKeys(again), keys);
  }
}
