/** Generated binding names.

Every binding the service creates is named after the service account it serves, the
LdapGroupBinding that asked for it and the role it grants, joined with colons.  Account names and
LdapGroupBinding names are Kubernetes object names, which hold no colon; role names may hold any. */
module Names {
  predicate ColonFree(s: string) {
    ':' !in s
  }

  function GenBindingName(user: string, role: string, group: string): string {
    "kerbernetes:" + user + ":" + group + ":" + role
  }

  /** The part of a generated name that depends on the account alone. */
  function AccountPrefix(user: string): string {
    "kerbernetes:" + user + ":"
  }

  /** `name` lies in the block of names reserved for `user`. */
  predicate Belongs(name: string, user: string) {
    AccountPrefix(user) <= name
  }

  lemma SplitAtColon(a: string, x: string, b: string, y: string)
    requires ColonFree(a) && ColonFree(b)
    requires a + ":" + x == b + ":" + y
    ensures a == b && x == y
  {
    var s, t := a + ":" + x, b + ":" + y;
    assert s[|a|] == ':' && forall i | 0 <= i < |a| :: s[i] != ':';
    assert t[|b|] == ':' && forall i | 0 <= i < |b| :: t[i] != ':';
    assert |a| == |b|;
    assert a == s[..|a|] && b == t[..|b|];
    assert x == s[|a| + 1..] && y == t[|b| + 1..];
  }

  /** A generated name, part by part: nothing stands before, between or after these. */
  lemma GeneratedNameParts(user: string, role: string, group: string)
    ensures var name, u, g := GenBindingName(user, role, group), 12 + |user|, 13 + |user| + |group|;
            && |name| == 14 + |user| + |group| + |role|
            && name[..12] == "kerbernetes:" && name[12..u] == user && name[u] == ':'
            && name[u + 1..g] == group && name[g] == ':' && name[g + 1..] == role
  {
    var name, u, g := GenBindingName(user, role, group), 12 + |user|, 13 + |user| + |group|;
    assert name[..12] == "kerbernetes:";
    assert name[12..u] == user;
    assert name[u + 1..g] == group;
    assert name[g + 1..] == role;
  }

  /** Different (account, role, LdapGroupBinding) triples never share a name; the role is free text. */
  lemma GenBindingNameInjective(user: string, role: string, group: string,
                                user': string, role': string, group': string)
    requires ColonFree(user) && ColonFree(user') && ColonFree(group) && ColonFree(group')
    requires GenBindingName(user, role, group) == GenBindingName(user', role', group')
    ensures user == user' && role == role' && group == group'
  {
    var lead := "kerbernetes:";
    var x, y := group + ":" + role, group' + ":" + role';
    assert GenBindingName(user, role, group) == lead + (user + ":" + x);
    assert GenBindingName(user', role', group') == lead + (user' + ":" + y);
    assert user + ":" + x == (lead + (user + ":" + x))[|lead|..];
    assert user' + ":" + y == (lead + (user' + ":" + y))[|lead|..];
    SplitAtColon(user, x, user', y);
    SplitAtColon(group, role, group', role');
  }

  /** For one account, names collide exactly when the "LdapGroupBinding:role" tails do. */
  lemma SameAccountCollision(user: string, role: string, group: string, role': string, group': string)
    ensures GenBindingName(user, role, group) == GenBindingName(user, role', group')
            <==> group + ":" + role == group' + ":" + role'
  {
    var lead := AccountPrefix(user);
    assert GenBindingName(user, role, group) == lead + (group + ":" + role);
    assert GenBindingName(user, role', group') == lead + (group' + ":" + role');
    assert (lead + (group + ":" + role))[|lead|..] == group + ":" + role;
    assert (lead + (group' + ":" + role'))[|lead|..] == group' + ":" + role';
  }

  /** Without the colon rule on LdapGroupBinding names the encoding is ambiguous. */
  lemma ColonInGroupCollides(user: string)
    ensures GenBindingName(user, "b:c", "a") == GenBindingName(user, "c", "a:b")
  {
    SameAccountCollision(user, "b:c", "a", "c", "a:b");
    assert "a" + ":" + "b:c" == "a:b" + ":" + "c";
  }

  lemma GeneratedNameBelongs(user: string, role: string, group: string)
    ensures Belongs(GenBindingName(user, role, group), user)
  {
    assert GenBindingName(user, role, group) == AccountPrefix(user) + (group + ":" + role);
  }

  lemma BlockMeaning(name: string, user: string)
    requires Belongs(name, user)
    ensures |name| >= 12 && name[12..] == user + ":" + name[|AccountPrefix(user)|..]
  {
    var p := AccountPrefix(user);
    assert p == "kerbernetes:" + (user + ":") && name == p + name[|p|..];
    assert name[12..|p|] == p[12..] == user + ":";
    assert name[12..] == name[12..|p|] + name[|p|..];
  }

  /** The blocks of two colon-free accounts are disjoint. */
  lemma BelongsToOne(name: string, user: string, user': string)
    requires ColonFree(user) && ColonFree(user')
    requires Belongs(name, user) && Belongs(name, user')
    ensures user == user'
  {
    BlockMeaning(name, user);
    BlockMeaning(name, user');
    SplitAtColon(user, name[|AccountPrefix(user)|..], user', name[|AccountPrefix(user')|..]);
  }
}
