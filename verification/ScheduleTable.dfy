/**
 * The table of schedules that plugins registered (internal/scheduler/scheduler.go). The keys are strings
 * made of the owner and the id with a NUL between them.
 */
module ScheduleTable {
  datatype Schedule = Schedule(owner: string, id: string, callback: string, spec: string)

  type Table = map<string, Schedule>

  const NUL: char := '\0'

  function Key(owner: string, id: string): string {
    owner + [NUL] + id
  }

  /** The names of owners that the host gives out hold no NUL; ids are the plugin's own. */
  predicate Plain(owner: string) {
    NUL !in owner
  }

  /**
   * Exactly which owners can come into each other's way: those of which one, followed by NUL, begins the
   * other. So owners without NUL never do, whatever their ids.
   */
  lemma OwnersCollideIff(a: string, b: string)
    requires a != b
    ensures (exists i, j :: Key(a, i) == Key(b, j)) <==> a + [NUL] <= b || b + [NUL] <= a
    ensures Plain(a) && Plain(b) ==> forall i, j :: Key(a, i) != Key(b, j)
  {
    forall i, j | Key(a, i) == Key(b, j)
      ensures a + [NUL] <= b || b + [NUL] <= a
    {
      PrefixesOfOne(a, i, b, j);
    }
    if a + [NUL] <= b {
      var i := b[|a| + 1..] + [NUL];
      assert Key(a, i) == Key(b, []);
    }
    if b + [NUL] <= a {
      var j := a[|b| + 1..] + [NUL];
      assert Key(a, []) == Key(b, j);
    }
    assert a + [NUL] <= b ==> b[|a|] == NUL;
    assert b + [NUL] <= a ==> a[|b|] == NUL;
  }

  lemma PrefixesOfOne(a: string, i: string, b: string, j: string)
    requires a != b && Key(a, i) == Key(b, j)
    ensures a + [NUL] <= b || b + [NUL] <= a
  {
    var k := Key(a, i);
    assert k[..|a| + 1] == a + [NUL] && k[..|b| + 1] == b + [NUL];
    assert k[..|a|] == a && k[..|b|] == b;
    if |a| < |b| {
      assert k[..|b| + 1][..|a| + 1] == k[..|a| + 1];
    } else if |b| < |a| {
      assert k[..|a| + 1][..|b| + 1] == k[..|b| + 1];
    }
  }

  lemma SameOwner(owner: string, i: string, j: string)
    requires Key(owner, i) == Key(owner, j)
    ensures i == j
  {
    assert i == Key(owner, i)[|owner| + 1..] && j == Key(owner, j)[|owner| + 1..];
  }

  /** Each schedule is filed under its own key. */
  predicate Inv(t: Table) {
    forall k :: k in t ==> k == Key(t[k].owner, t[k].id)
  }

  function OwnedBy(t: Table, owner: string): set<string> {
    set k | k in t && t[k].owner == owner :: t[k].id
  }

  /** What removal by prefix takes away. */
  function Begun(t: Table, owner: string): set<string> {
    set k | k in t && owner + [NUL] <= k
  }

  /**
   * Removing an owner's schedules by the prefix of their keys takes all of the owner's; it can take one of
   * another owner only if one of the two names, followed by NUL, begins the other.
   */
  lemma RemovalTakes(t: Table, owner: string)
    requires Inv(t)
    ensures forall k :: k in t && t[k].owner == owner ==> k in Begun(t, owner)
    ensures forall k :: k in t && k in Begun(t, owner) && t[k].owner != owner ==>
      t[k].owner + [NUL] <= owner || owner + [NUL] <= t[k].owner
  {
    forall k | k in t && t[k].owner == owner
      ensures k in Begun(t, owner)
    {
      assert owner + [NUL] <= Key(owner, t[k].id);
    }
    forall k | k in t && k in Begun(t, owner) && t[k].owner != owner
      ensures t[k].owner + [NUL] <= owner || owner + [NUL] <= t[k].owner
    {
      assert k == Key(owner, k[|owner| + 1..]);
      PrefixesOfOne(t[k].owner, t[k].id, owner, k[|owner| + 1..]);
    }
  }

  lemma AllTaken(was: Table, left: Table, owner: string)
    requires Inv(was)
    requires forall k :: k in left ==> k in was && left[k] == was[k] && !(owner + [NUL] <= k)
    requires forall k :: k in was && !(owner + [NUL] <= k) ==> k in left
    ensures Inv(left) && left == was - Begun(was, owner) && OwnedBy(left, owner) == {}
  {
    RemovalTakes(was, owner);
  }

  lemma NoNulPrefix(a: string, b: string)
    requires Plain(b)
    ensures !(a + [NUL] <= b)
  {
    assert |a| < |b| ==> b[|a|] in b;
  }

  /** With names that hold no NUL it is always exact, and identifiers are the owner's own. */
  lemma PlainOwnersAreApart(t: Table, owner: string, id: string)
    requires Inv(t) && Plain(owner) && forall k :: k in t ==> Plain(t[k].owner)
    ensures forall k :: k in t ==> (k in Begun(t, owner) <==> t[k].owner == owner)
    ensures Key(owner, id) in t <==> id in OwnedBy(t, owner)
  {
    RemovalTakes(t, owner);
    forall k | k in t && t[k].owner != owner
      ensures !(owner + [NUL] <= t[k].owner) && !(t[k].owner + [NUL] <= owner)
    {
      NoNulPrefix(owner, t[k].owner);
      NoNulPrefix(t[k].owner, owner);
    }
    if Key(owner, id) in t {
      var s := t[Key(owner, id)];
      if s.owner != owner {
        OwnersCollideIff(s.owner, owner);
      }
      SameOwner(owner, s.id, id);
    }
  }

  class Scheduler {
    var plugin: Table

    constructor ()
      ensures plugin == map[] && Inv(plugin)
    {
      plugin := map[];
    }

    /** A schedule whose key is taken is refused. */
    method RegisterPlugin(value: Schedule, blank: bool, compiles: bool) returns (ok: bool)
      requires Inv(plugin)
      modifies this
      ensures Inv(plugin)
      ensures ok <==> !blank && compiles && Key(value.owner, value.id) !in old(plugin)
      ensures plugin == if ok then old(plugin)[Key(value.owner, value.id) := value] else old(plugin)
    {
      var key := Key(value.owner, value.id);
      if blank || !compiles || key in plugin {
        return false;
      }
      plugin := plugin[key := value];
      return true;
    }

    method RemovePlugin(owner: string, id: string) returns (ok: bool)
      modifies this
      ensures old(Inv(plugin)) ==> Inv(plugin)
      ensures ok <==> Key(owner, id) in old(plugin)
      ensures plugin == old(plugin) - {Key(owner, id)}
    {
      var key := Key(owner, id);
      ok := key in plugin;
      plugin := plugin - {key};
    }

    /** The ids are collected from the keys, then removed one by one: all keys with the owner's prefix, and no other. */
    method RemovePluginOwner(owner: string)
      requires Inv(plugin)
      modifies this
      ensures Inv(plugin)
      ensures plugin == old(plugin) - Begun(old(plugin), owner)
      ensures OwnedBy(plugin, owner) == {}
    {
      hide Inv;
      var prefix := owner + [NUL];
      ghost var was := plugin;
      var ids := set k | k in plugin && prefix <= k :: k[|prefix|..];
      while ids != {}
        invariant forall k :: k in plugin ==> k in was && plugin[k] == was[k]
        invariant forall k :: k in was && !(prefix <= k) ==> k in plugin
        invariant forall k :: k in plugin && prefix <= k ==> k[|prefix|..] in ids
        decreases |ids|
      {
        var id :| id in ids;
        var _ := RemovePlugin(owner, id);
        ids := ids - {id};
        assert forall k: string :: prefix <= k && k[|prefix|..] == id ==> k == Key(owner, id);
      }
      AllTaken(was, plugin, owner);
    }
  }
}
