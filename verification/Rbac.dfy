/** Role-based access control: grants, inheritance, and the privilege check as reachability. */
module Rbac {
  datatype Privilege = Select | Insert | Update | Delete | Create | Drop | Grant | Monitor | Admin

  datatype Object = Global | Table(name: string) | Database(name: string)

  datatype RoleName = RoleName(text: string)

  datatype Role = Role(grants: map<Object, set<Privilege>>, inherits: set<RoleName>)

  type Roles = map<RoleName, Role>

  datatype RbacError = NoSuchRole(name: RoleName) | RoleExists(name: RoleName)

  datatype Outcome = Done | Failed(error: RbacError)

  datatype Request = Request(privilege: Privilege, target: Object)

  predicate Contains(grants: map<Object, set<Privilege>>, target: Object, privilege: Privilege) {
    target in grants && privilege in grants[target]
  }

  /** The role's own grants answer the request: superuser, the privilege here or globally, or admin here. */
  predicate Satisfies(r: Role, q: Request) {
    || Contains(r.grants, Global, Admin)
    || Contains(r.grants, q.target, q.privilege) || Contains(r.grants, Global, q.privilege)
    || Contains(r.grants, q.target, Admin)
  }

  /** A role answers a request when, globally or on its target, it holds the privilege or admin. */
  lemma SatisfiesIff(r: Role, q: Request)
    ensures Satisfies(r, q) <==> exists scope, held ::
      Contains(r.grants, scope, held) && scope in {Global, q.target} && held in {q.privilege, Admin}
  {
  }

  // Reachability through inheritance; edges may dangle and form cycles.

  predicate Edge(roles: Roles, a: RoleName, b: RoleName) { a in roles && b in roles[a].inherits }

  ghost predicate Chain(roles: Roles, p: seq<RoleName>) {
    p != [] && (|p| == 1 || (Edge(roles, p[0], p[1]) && Chain(roles, p[1..])))
  }

  ghost predicate Reaches(roles: Roles, a: RoleName, b: RoleName) {
    exists p :: Chain(roles, p) && p[0] == a && p[|p| - 1] == b
  }

  /** Some existing role reachable from `role` satisfies the request. */
  ghost predicate Allowed(roles: Roles, role: RoleName, q: Request) {
    exists b :: b in roles && Reaches(roles, role, b) && Satisfies(roles[b], q)
  }

  lemma ReachesSelf(roles: Roles, a: RoleName)
    ensures Reaches(roles, a, a)
  {
    assert Chain(roles, [a]) && [a][0] == a && [a][|[a]| - 1] == a;
  }

  lemma ReachesThrough(roles: Roles, a: RoleName, b: RoleName, c: RoleName)
    requires a in roles && b in roles[a].inherits && Reaches(roles, b, c)
    ensures Reaches(roles, a, c)
  {
    var p :| Chain(roles, p) && p[0] == b && p[|p| - 1] == c;
    var q := [a] + p;
    assert q[1..] == p;
    assert Chain(roles, q) && q[0] == a && q[|q| - 1] == c;
  }

  /** No existing role among `names` satisfies, and all they inherit has been visited. */
  ghost predicate Barren(roles: Roles, q: Request, names: set<RoleName>, visited: set<RoleName>) {
    forall n :: n in names && n in roles ==> !Satisfies(roles[n], q) && roles[n].inherits <= visited
  }

  /** A barren closed set holds every chain that starts in it. */
  lemma {:induction false} ChainStays(roles: Roles, q: Request, s: set<RoleName>, p: seq<RoleName>)
    requires Chain(roles, p) && p[0] in s && Barren(roles, q, s, s)
    ensures p[|p| - 1] in s
  {
    if |p| > 1 { ChainStays(roles, q, s, p[1..]); }
  }

  /** The depth-first check with one shared visited set. */
  method Check(roles: Roles, role: RoleName, q: Request, visited0: set<RoleName>)
    returns (ok: bool, visited: set<RoleName>)
    ensures ok ==> Allowed(roles, role, q)
    ensures !ok ==> visited0 + {role} <= visited && Barren(roles, q, visited - visited0, visited)
    decreases roles.Keys - visited0
  {
    visited := visited0;
    if role in visited { return false, visited; }
    visited := visited + {role};
    if role !in roles { return false, visited; }
    var r := roles[role];
    if Satisfies(r, q) {
      ReachesSelf(roles, role);
      return true, visited;
    }
    var rest := r.inherits;
    while rest != {}
      invariant rest <= r.inherits && visited0 + {role} <= visited && r.inherits - rest <= visited
      invariant Barren(roles, q, visited - visited0 - {role}, visited)
      decreases |rest|
    {
      var parent :| parent in rest;
      rest := rest - {parent};
      ghost var before := visited;
      ok, visited := Check(roles, parent, q, visited);
      if ok {
        AllowedThrough(roles, role, parent, q);
        return true, visited;
      }
      BarrenGrows(roles, q, visited0 + {role}, before, visited);
    }
    return false, visited;
  }

  lemma AllowedThrough(roles: Roles, role: RoleName, parent: RoleName, q: Request)
    requires role in roles && parent in roles[role].inherits && Allowed(roles, parent, q)
    ensures Allowed(roles, role, q)
  {
    var b :| b in roles && Reaches(roles, parent, b) && Satisfies(roles[b], q);
    ReachesThrough(roles, role, parent, b);
  }

  lemma BarrenGrows(roles: Roles, q: Request, base: set<RoleName>, before: set<RoleName>, after: set<RoleName>)
    requires base <= before <= after
    requires Barren(roles, q, before - base, before) && Barren(roles, q, after - before, after)
    ensures Barren(roles, q, after - base, after)
  {
  }

  /** `has_privilege` is exactly reachability, for any graph. */
  method HasPrivilege(roles: Roles, role: RoleName, q: Request) returns (ok: bool)
    ensures ok <==> Allowed(roles, role, q)
  {
    var visited;
    ok, visited := Check(roles, role, q, {});
    if !ok {
      assert visited - {} == visited;
      if Allowed(roles, role, q) {
        var b :| b in roles && Reaches(roles, role, b) && Satisfies(roles[b], q);
        Refuted(roles, role, q, visited, b);
      }
    }
  }

  lemma Refuted(roles: Roles, role: RoleName, q: Request, visited: set<RoleName>, b: RoleName)
    requires role in visited && Barren(roles, q, visited, visited) && b in roles && Reaches(roles, role, b)
    ensures !Satisfies(roles[b], q)
  {
    var p :| Chain(roles, p) && p[0] == role && p[|p| - 1] == b;
    ChainStays(roles, q, visited, p);
  }

  // What edits do to permissions.

  ghost predicate Within(a: Role, b: Role) {
    a.inherits <= b.inherits && forall o, p :: Contains(a.grants, o, p) ==> Contains(b.grants, o, p)
  }

  /** `more` has every grant and every edge of `roles`. */
  ghost predicate Extends(roles: Roles, more: Roles) {
    forall n :: n in roles ==> n in more && Within(roles[n], more[n])
  }

  lemma {:induction false} ChainMonotone(roles: Roles, more: Roles, p: seq<RoleName>)
    requires Extends(roles, more) && Chain(roles, p)
    ensures Chain(more, p)
  {
    if |p| > 1 { ChainMonotone(roles, more, p[1..]); }
  }

  /** Adding roles, grants or edges never takes a permission away. */
  lemma AllowedMonotone(roles: Roles, more: Roles, role: RoleName, q: Request)
    requires Extends(roles, more) && Allowed(roles, role, q)
    ensures Allowed(more, role, q)
  {
    var b :| b in roles && Reaches(roles, role, b) && Satisfies(roles[b], q);
    var p :| Chain(roles, p) && p[0] == role && p[|p| - 1] == b;
    ChainMonotone(roles, more, p);
    assert Reaches(more, role, b) && Satisfies(more[b], q);
  }

  function Granted(grants: map<Object, set<Privilege>>, target: Object,
                   privilege: Privilege): map<Object, set<Privilege>> {
    grants[target := (if target in grants then grants[target] else {}) + {privilege}]
  }

  function Revoked(grants: map<Object, set<Privilege>>, target: Object,
                   privilege: Privilege): map<Object, set<Privilege>> {
    if target in grants then grants[target := grants[target] - {privilege}] else grants
  }

  /** An edit adds or removes the one grant it names. */
  lemma EditsExact(grants: map<Object, set<Privilege>>, target: Object, privilege: Privilege, o: Object,
                   p: Privilege)
    ensures Contains(Granted(grants, target, privilege), o, p) <==>
            Contains(grants, o, p) || (o == target && p == privilege)
    ensures Contains(Revoked(grants, target, privilege), o, p) <==>
            Contains(grants, o, p) && !(o == target && p == privilege)
  {
  }

  class RoleStore {
    var roles: Roles

    constructor ()
      ensures roles == map[]
    {
      roles := map[];
    }

    method CreateRole(name: RoleName) returns (r: Outcome)
      modifies this
      ensures r == if name in old(roles) then Failed(RoleExists(name)) else Done
      ensures roles == if name in old(roles) then old(roles) else old(roles)[name := Role(map[], {})]
      ensures Extends(old(roles), roles)
    {
      if name in roles { return Failed(RoleExists(name)); }
      roles := roles[name := Role(map[], {})];
      return Done;
    }

    /** The bootstrap role may do everything, whatever it was before. */
    method CreateSuperuser(name: RoleName)
      modifies this
      ensures Extends(old(roles), roles) && forall q :: Allowed(roles, name, q)
      ensures forall n :: n != name ==> (n in roles <==> n in old(roles)) && (n in roles ==> roles[n] == old(roles)[n])
    {
      var r := if name in roles then roles[name] else Role(map[], {});
      roles := roles[name := r.(grants := Granted(r.grants, Global, Admin))];
      ReachesSelf(roles, name);
      forall q ensures Allowed(roles, name, q) { assert Satisfies(roles[name], q); }
    }

    /** Dropping leaves other roles' edges to the name dangling. */
    method DropRole(name: RoleName) returns (r: Outcome)
      modifies this
      ensures r == if name in old(roles) then Done else Failed(NoSuchRole(name))
      ensures roles == old(roles) - {name}
      ensures forall q :: !Allowed(roles, name, q)
    {
      r := if name in roles then Done else Failed(NoSuchRole(name));
      roles := roles - {name};
      forall q ensures !Allowed(roles, name, q) { MissingDenied(roles, name, q); }
    }

    method GrantPrivilege(role: RoleName, privilege: Privilege, target: Object) returns (r: Outcome)
      modifies this
      ensures r == if role in old(roles) then Done else Failed(NoSuchRole(role))
      ensures roles == if role !in old(roles) then old(roles) else
                old(roles)[role := old(roles)[role].(grants := Granted(old(roles)[role].grants, target, privilege))]
      ensures Extends(old(roles), roles) && (r.Done? ==> Allowed(roles, role, Request(privilege, target)))
    {
      if role !in roles { return Failed(NoSuchRole(role)); }
      roles := roles[role := roles[role].(grants := Granted(roles[role].grants, target, privilege))];
      ReachesSelf(roles, role);
      return Done;
    }

    method Revoke(role: RoleName, privilege: Privilege, target: Object) returns (r: Outcome)
      modifies this
      ensures r == if role in old(roles) then Done else Failed(NoSuchRole(role))
      ensures roles == if role !in old(roles) then old(roles) else
                old(roles)[role := old(roles)[role].(grants := Revoked(old(roles)[role].grants, target, privilege))]
      ensures Extends(roles, old(roles)) && (r.Done? ==> !Contains(roles[role].grants, target, privilege))
    {
      if role !in roles { return Failed(NoSuchRole(role)); }
      roles := roles[role := roles[role].(grants := Revoked(roles[role].grants, target, privilege))];
      return Done;
    }

    /** The member may then do everything the parent may. */
    method GrantRole(member: RoleName, parent: RoleName) returns (r: Outcome)
      modifies this
      ensures r == if parent !in old(roles) then Failed(NoSuchRole(parent))
                   else if member !in old(roles) then Failed(NoSuchRole(member)) else Done
      ensures roles == if r.Failed? then old(roles) else
                old(roles)[member := old(roles)[member].(inherits := old(roles)[member].inherits + {parent})]
      ensures Extends(old(roles), roles)
      ensures r.Done? ==> forall q :: Allowed(old(roles), parent, q) ==> Allowed(roles, member, q)
    {
      if parent !in roles { return Failed(NoSuchRole(parent)); }
      if member !in roles { return Failed(NoSuchRole(member)); }
      roles := roles[member := roles[member].(inherits := roles[member].inherits + {parent})];
      forall q | Allowed(old(roles), parent, q) ensures Allowed(roles, member, q) {
        AllowedMonotone(old(roles), roles, parent, q);
        AllowedThrough(roles, member, parent, q);
      }
      return Done;
    }

    method RevokeRole(member: RoleName, parent: RoleName)
      modifies this
      ensures roles == if member !in old(roles) then old(roles) else
                old(roles)[member := old(roles)[member].(inherits := old(roles)[member].inherits - {parent})]
      ensures Extends(roles, old(roles))
    {
      if member in roles {
        roles := roles[member := roles[member].(inherits := roles[member].inherits - {parent})];
      }
    }
  }

  /** A name without a role may do nothing. */
  lemma MissingDenied(roles: Roles, name: RoleName, q: Request)
    requires name !in roles
    ensures !Allowed(roles, name, q)
  {
    forall b | b in roles ensures !Reaches(roles, name, b) {
      forall p | Chain(roles, p) && p[0] == name ensures p[|p| - 1] != b {
        assert !Edge(roles, name, b);
      }
    }
  }
}
