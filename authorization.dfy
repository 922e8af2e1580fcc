/**
 * AuthorizationService.java: the groups configured for each role of the
 * service, turned into Spring authorities, and the test of a user's
 * authorities against an expected role. The configuration (the Spring
 * properties the init methods are bound to) is a map from key to value.
 */
module Authorization {
  import opened JavaText

  /** The roles a request can be checked for. */
  datatype Role = OlogAdmin | OlogLog | OlogTag | OlogLogbook | OlogProperty

  const ROLE_PREFIX := "ROLE_"

  predicate IsComma(c: char) { c == ',' }

  /** The authority a configured group stands for: the prefix, then the group trimmed and upper-cased. */
  function GroupRole(group: string): (r: string)
    ensures StartsWith(r, ROLE_PREFIX) && r[|ROLE_PREFIX|..] == Upper(Trim(group))
  {
    ROLE_PREFIX + Upper(Trim(group))
  }

  /** A configured group list as the init methods read it: split at ',' as String.split does, each piece mapped. */
  function GroupRoles(groups: string): (r: seq<string>)
  {
    var pieces := JavaSplit(groups, IsComma);
    seq(|pieces|, i requires 0 <= i < |pieces| => GroupRole(pieces[i]))
  }

  /** What every configured authority looks like: the prefix, then no ',' and no lower-case letter. */
  predicate IsNormalisedRole(r: string) {
    StartsWith(r, ROLE_PREFIX) && forall c :: c in r[|ROLE_PREFIX|..] ==> c != ',' && !('a' <= c <= 'z')
  }

  lemma UpperHasNoLowerCase(s: string)
    ensures forall c :: c in Upper(s) ==> !('a' <= c <= 'z')
  {
    forall c | c in Upper(s)
      ensures !('a' <= c <= 'z')
    {
      var i :| 0 <= i < |Upper(s)| && Upper(s)[i] == c;
    }
  }

  /** Upper-casing changes letters only, so it leaves the commas where they were. */
  lemma UpperKeepsCommas(s: string)
    requires forall c :: c in s ==> c != ','
    ensures forall c :: c in Upper(s) ==> c != ','
  {
    forall c | c in Upper(s)
      ensures c != ','
    {
      var i :| 0 <= i < |Upper(s)| && Upper(s)[i] == c;
      assert s[i] in s;
    }
  }

  /** Every authority a group list yields is normalised, whatever the list holds. */
  lemma GroupRolesNormalised(groups: string)
    ensures forall r :: r in GroupRoles(groups) ==> IsNormalisedRole(r)
  {
    var pieces := JavaSplit(groups, IsComma);
    forall r | r in GroupRoles(groups)
      ensures IsNormalisedRole(r)
    {
      var i :| 0 <= i < |pieces| && GroupRoles(groups)[i] == r;
      assert pieces[i] in pieces;
      var t := Trim(pieces[i]);
      assert forall c :: c in t ==> c in pieces[i];
      UpperKeepsCommas(t);
      UpperHasNoLowerCase(t);
    }
  }

  /** A list without a comma is one group, whatever spaces or case it is written with. */
  lemma SingleGroup(group: string)
    requires forall i :: 0 <= i < |group| ==> group[i] != ','
    ensures GroupRoles(group) == [GroupRole(group)]
  {
    assert forall c :: c in group ==> !IsComma(c);
  }

  /** Two spellings of a group that differ only in case and surrounding spaces grant the same authority. */
  lemma GroupRoleIgnoresCaseAndSpaces(a: string, b: string)
    ensures GroupRole(a) == GroupRole(b) <==> Upper(Trim(a)) == Upper(Trim(b))
  {
    if GroupRole(a) == GroupRole(b) {
      assert GroupRole(a)[|ROLE_PREFIX|..] == GroupRole(b)[|ROLE_PREFIX|..];
    }
  }

  /** A group written without surrounding spaces is left as it is by the trim. */
  lemma TrimKeepsPlainGroup(g: string)
    requires g != [] && g[0] > ' ' && g[|g| - 1] > ' '
    ensures Trim(g) == g
  {
  }

  /** The authority of a group has the group's length after the prefix. */
  lemma PlainGroupRoleLength(g: string)
    requires g != [] && g[0] > ' ' && g[|g| - 1] > ' '
    ensures |GroupRole(g)| == |ROLE_PREFIX| + |g|
  {
    TrimKeepsPlainGroup(g);
  }

  /** Some authority the user holds is one of `groups` (Collections.disjoint is false). */
  predicate Shares(auth: seq<string>, groups: seq<string>) {
    exists a :: a in auth && a in groups
  }

  /** The group authorities of every role. */
  datatype Groups = Groups(admin: seq<string>, log: seq<string>, tag: seq<string>,
                           logbook: seq<string>, property: seq<string>)

  /** The decision of isAuthorizedRole for the authorities `auth`. */
  predicate Grants(auth: seq<string>, g: Groups, expected: Role) {
    Shares(auth, g.admin) ||
    match expected
    case OlogLog =>
      Shares(auth, g.log) || Shares(auth, g.logbook) || Shares(auth, g.tag) || Shares(auth, g.property)
    case OlogLogbook => Shares(auth, g.logbook)
    case OlogTag => Shares(auth, g.tag)
    case OlogProperty => Shares(auth, g.property)
    case OlogAdmin => false
  }

  /** A configured value, or the default the binding names when the key is not set. */
  function Setting(config: map<string, string>, key: string, default: string): (v: string)
    ensures key !in config ==> v == default
    ensures key in config ==> v == config[key]
  {
    if key in config then config[key] else default
  }

  /** The logbook groups as bound in the source: to the key "property-groups", default "olog-logbooks". */
  function LogbookSettingAsWritten(config: map<string, string>): string {
    Setting(config, "property-groups", "olog-logbooks")
  }

  /** The logbook groups under a key of their own, "logbook-groups", default "olog-logbooks". */
  function LogbookSetting(config: map<string, string>): string {
    Setting(config, "logbook-groups", "olog-logbooks")
  }

  function PropertySetting(config: map<string, string>): string {
    Setting(config, "property-groups", "olog-properties")
  }

  /** The groups the service is configured with, the logbook groups under their own key. */
  function ConfiguredGroups(config: map<string, string>): (g: Groups)
    ensures g.logbook == GroupRoles(LogbookSetting(config))
    ensures g.property == GroupRoles(PropertySetting(config))
  {
    Groups(GroupRoles(Setting(config, "admin-groups", "olog-admins")),
           GroupRoles(Setting(config, "channel-groups", "olog-logs")),
           GroupRoles(Setting(config, "tag-groups", "olog-tags")),
           GroupRoles(LogbookSetting(config)),
           GroupRoles(PropertySetting(config)))
  }

  /** The groups as the bindings are written: the logbook groups follow "property-groups". */
  function ConfiguredGroupsAsWritten(config: map<string, string>): (g: Groups)
    ensures "property-groups" in config ==> g.logbook == g.property
  {
    ConfiguredGroups(config).(logbook := GroupRoles(LogbookSettingAsWritten(config)))
  }

  /** The two bindings agree as long as neither "property-groups" nor "logbook-groups" is set. */
  lemma BindingsAgreeByDefault(config: map<string, string>)
    requires "property-groups" !in config && "logbook-groups" !in config
    ensures ConfiguredGroupsAsWritten(config) == ConfiguredGroups(config)
  {
  }

  /** The default admin group is one group, "ROLE_" and eleven characters. */
  lemma AdminDefault()
    ensures GroupRoles("olog-admins") == [GroupRole("olog-admins")] && |GroupRole("olog-admins")| == 16
  {
    SingleGroup("olog-admins");
    PlainGroupRoleLength("olog-admins");
  }

  /** The default logbook group is one group, "ROLE_" and thirteen characters. */
  lemma LogbookDefault()
    ensures GroupRoles("olog-logbooks") == [GroupRole("olog-logbooks")] && |GroupRole("olog-logbooks")| == 18
  {
    SingleGroup("olog-logbooks");
    PlainGroupRoleLength("olog-logbooks");
  }

  /** The default property group is one group, "ROLE_" and fifteen characters. */
  lemma PropertyDefault()
    ensures GroupRoles("olog-properties") == [GroupRole("olog-properties")] && |GroupRole("olog-properties")| == 20
  {
    PropertyDefaultHasNoComma();
    SingleGroup("olog-properties");
    PlainGroupRoleLength("olog-properties");
  }

  lemma PropertyDefaultHasNoComma()
    ensures forall i :: 0 <= i < |"olog-properties"| ==> "olog-properties"[i] != ','
  {
  }

  /** A user holding the one authority `a` may change logbooks exactly when `a` is an admin or logbook group. */
  lemma GrantsLogbookToOne(a: string, g: Groups)
    ensures Grants([a], g, OlogLogbook) <==> a in g.admin || a in g.logbook
  {
    assert a in [a];
  }

  /** The admin and logbook groups of both bindings when only "property-groups" is set, to its default. */
  lemma PropertyDefaultSetGroups()
    ensures var config := map["property-groups" := "olog-properties"];
      && ConfiguredGroupsAsWritten(config).admin == [GroupRole("olog-admins")]
      && ConfiguredGroups(config).admin == [GroupRole("olog-admins")]
      && ConfiguredGroupsAsWritten(config).logbook == [GroupRole("olog-properties")]
      && ConfiguredGroups(config).logbook == [GroupRole("olog-logbooks")]
  {
    AdminDefault();
    LogbookDefault();
    PropertyDefault();
  }

  /**
   * Setting "property-groups" to its own default moves the logbook role over
   * to the property group: a member of olog-logbooks may no longer change
   * logbooks, and a member of olog-properties may.
   */
  lemma PropertySettingMovesLogbookRole()
    ensures var config := map["property-groups" := "olog-properties"];
      && !Grants([GroupRole("olog-logbooks")], ConfiguredGroupsAsWritten(config), OlogLogbook)
      && Grants([GroupRole("olog-logbooks")], ConfiguredGroups(config), OlogLogbook)
      && Grants([GroupRole("olog-properties")], ConfiguredGroupsAsWritten(config), OlogLogbook)
      && !Grants([GroupRole("olog-properties")], ConfiguredGroups(config), OlogLogbook)
  {
    var config := map["property-groups" := "olog-properties"];
    AdminDefault();
    LogbookDefault();
    PropertyDefault();
    PropertyDefaultSetGroups();
    var written, intended := ConfiguredGroupsAsWritten(config), ConfiguredGroups(config);
    var logbooks, properties := GroupRole("olog-logbooks"), GroupRole("olog-properties");
    GrantsLogbookToOne(logbooks, written);
    GrantsLogbookToOne(logbooks, intended);
    GrantsLogbookToOne(properties, written);
    GrantsLogbookToOne(properties, intended);
  }

  /** Holding an admin group authorizes every role. */
  lemma AdminGrantsEveryRole(auth: seq<string>, g: Groups, expected: Role)
    requires Shares(auth, g.admin)
    ensures Grants(auth, g, expected)
  {
  }

  /** The admin role is granted by an admin group and nothing else. */
  lemma AdminRoleNeedsAdminGroup(auth: seq<string>, g: Groups)
    ensures Grants(auth, g, OlogAdmin) <==> Shares(auth, g.admin)
  {
  }

  /**
   * Writing log entries is the weakest role: whoever may change logbooks,
   * tags or properties may also write entries.
   */
  lemma LogRoleIsWeakest(auth: seq<string>, g: Groups, expected: Role)
    requires Grants(auth, g, expected)
    ensures Grants(auth, g, OlogLog)
  {
  }

  /** Logbooks, tags and properties each need their own group when the user is not an admin. */
  lemma SpecificRolesNeedOwnGroup(auth: seq<string>, g: Groups)
    requires !Shares(auth, g.admin)
    ensures Grants(auth, g, OlogLogbook) <==> Shares(auth, g.logbook)
    ensures Grants(auth, g, OlogTag) <==> Shares(auth, g.tag)
    ensures Grants(auth, g, OlogProperty) <==> Shares(auth, g.property)
    ensures Grants(auth, g, OlogLog) <==>
      Shares(auth, g.log) || Shares(auth, g.logbook) || Shares(auth, g.tag) || Shares(auth, g.property)
  {
  }

  /** More authorities never take a role away. */
  lemma GrantsMonotone(auth: seq<string>, more: seq<string>, g: Groups, expected: Role)
    requires forall a :: a in auth ==> a in more
    requires Grants(auth, g, expected)
    ensures Grants(more, g, expected)
  {
  }

  /**
   * An authority with a lower-case letter after the prefix (a group name the
   * directory did not upper-case) matches no configured group, so it grants
   * nothing.
   */
  lemma LowerCaseAuthorityGrantsNothing(config: map<string, string>, a: string, expected: Role)
    requires StartsWith(a, ROLE_PREFIX)
    requires exists i :: |ROLE_PREFIX| <= i < |a| && 'a' <= a[i] <= 'z'
    ensures !Grants([a], ConfiguredGroups(config), expected)
  {
    var i :| |ROLE_PREFIX| <= i < |a| && 'a' <= a[i] <= 'z';
    assert a[i] in a[|ROLE_PREFIX|..] by {
      assert a[|ROLE_PREFIX|..][i - |ROLE_PREFIX|] == a[i];
    }
    var g := ConfiguredGroups(config);
    NotNormalisedNotIn(a, Setting(config, "admin-groups", "olog-admins"));
    NotNormalisedNotIn(a, Setting(config, "channel-groups", "olog-logs"));
    NotNormalisedNotIn(a, Setting(config, "tag-groups", "olog-tags"));
    NotNormalisedNotIn(a, LogbookSetting(config));
    NotNormalisedNotIn(a, PropertySetting(config));
    assert !Shares([a], g.admin) && !Shares([a], g.log) && !Shares([a], g.tag)
        && !Shares([a], g.logbook) && !Shares([a], g.property);
  }

  lemma NotNormalisedNotIn(a: string, groups: string)
    requires !IsNormalisedRole(a)
    ensures a !in GroupRoles(groups)
  {
    GroupRolesNormalised(groups);
  }

  class AuthorizationService {
    var adminGroups: seq<string>
    var logGroups: seq<string>
    var tagGroups: seq<string>
    var logbookGroups: seq<string>
    var propertyGroups: seq<string>

    constructor ()
      ensures adminGroups == [] && logGroups == [] && tagGroups == [] && logbookGroups == [] && propertyGroups == []
    {
      adminGroups, logGroups, tagGroups, logbookGroups, propertyGroups := [], [], [], [], [];
    }

    /** The groups the service holds now. */
    function Current(): Groups
      reads this
    {
      Groups(adminGroups, logGroups, tagGroups, logbookGroups, propertyGroups)
    }

    /** initializeAdminRoles. */
    method InitializeAdminRoles(groups: string)
      modifies this
      ensures Current() == old(Current()).(admin := GroupRoles(groups))
    {
      adminGroups := GroupRoles(groups);
    }

    /** initializeChannelModRoles: the groups that may write log entries. */
    method InitializeChannelModRoles(groups: string)
      modifies this
      ensures Current() == old(Current()).(log := GroupRoles(groups))
    {
      logGroups := GroupRoles(groups);
    }

    /** initializeTagRoles. */
    method InitializeTagRoles(groups: string)
      modifies this
      ensures Current() == old(Current()).(tag := GroupRoles(groups))
    {
      tagGroups := GroupRoles(groups);
    }

    /** initializeLogbookRoles. */
    method InitializeLogbookRoles(groups: string)
      modifies this
      ensures Current() == old(Current()).(logbook := GroupRoles(groups))
    {
      logbookGroups := GroupRoles(groups);
    }

    /** initializePropertyRoles. */
    method InitializePropertyRoles(groups: string)
      modifies this
      ensures Current() == old(Current()).(property := GroupRoles(groups))
    {
      propertyGroups := GroupRoles(groups);
    }

    /**
     * The five init methods called with the configured values, as the
     * container does on start-up; the logbook groups are bound, as written,
     * to "property-groups".
     */
    method Configure(config: map<string, string>)
      modifies this
      ensures Current() == ConfiguredGroupsAsWritten(config)
    {
      InitializeAdminRoles(Setting(config, "admin-groups", "olog-admins"));
      InitializeChannelModRoles(Setting(config, "channel-groups", "olog-logs"));
      InitializeTagRoles(Setting(config, "tag-groups", "olog-tags"));
      InitializeLogbookRoles(LogbookSettingAsWritten(config));
      InitializePropertyRoles(PropertySetting(config));
    }

    /**
     * isAuthorizedRole: the user's authorities are copied into a list, which
     * is then checked against the admin groups and the expected role's groups.
     */
    method IsAuthorizedRole(authorities: seq<string>, expected: Role) returns (authorized: bool)
      ensures authorized <==> Grants(authorities, Current(), expected)
    {
      var auth: seq<string> := [];
      for i := 0 to |authorities|
        invariant auth == authorities[..i]
      {
        auth := auth + [authorities[i]];
      }
      assert auth == authorities;
      if Shares(auth, adminGroups) {
        return true;
      }
      match expected {
        case OlogLog =>
          authorized := Shares(auth, logGroups) || Shares(auth, logbookGroups)
                        || Shares(auth, tagGroups) || Shares(auth, propertyGroups);
        case OlogLogbook =>
          authorized := Shares(auth, logbookGroups);
        case OlogTag =>
          authorized := Shares(auth, tagGroups);
        case OlogProperty =>
          authorized := Shares(auth, propertyGroups);
        case OlogAdmin =>
          authorized := false;
      }
    }
  }
}
