/**
 * Organisations and their departments: an admin-initialised registry in
 * which anyone may found an organisation, its owner adds departments (each
 * optionally under a parent department of the same organisation) and assigns
 * employees, each employee belonging to at most one department per
 * organisation.
 */
module DepartmentManager {
  import opened Ledger

  datatype Organization = Organization(id: nat, name: string, owner: Address, createdAt: nat)

  datatype Department = Department(id: nat, orgId: nat, name: string, parentId: Option<nat>, createdAt: nat)

  datatype Error =
    | AlreadyInitialized | NotInitialized | OrganizationNotFound | NotOrganizationOwner
    | ParentNotFound | ParentInOtherOrg | DepartmentNotFound | DepartmentNotInOrg

  /** A stored list, or the empty list when nothing is stored under `k`. */
  function Lookup<K, V>(m: map<K, seq<V>>, k: K): seq<V>
  {
    if k in m then m[k] else []
  }

  /** The first index holding `x`. */
  function FirstIndex(xs: seq<Address>, x: Address): (i: nat)
    requires x in xs
    ensures i < |xs| && xs[i] == x && x !in xs[..i]
  {
    if xs[0] == x then 0
    else
      var j := FirstIndex(xs[1..], x);
      assert xs[..j + 1] == [xs[0]] + xs[1..][..j];
      j + 1
  }

  /** The list with the first occurrence of `x` taken out; a list without `x` is left as it is. */
  function RemoveFirst(xs: seq<Address>, x: Address): (r: seq<Address>)
    ensures multiset(r) == multiset(xs) - multiset{x}
  {
    if x in xs then
      var i := FirstIndex(xs, x);
      assert xs == xs[..i] + [x] + xs[i + 1..];
      xs[..i] + xs[i + 1..]
    else xs
  }

  /** The scan of remove_employee_from_department_internal: find the first match, cut it out, stop. */
  method RemoveFirstOccurrence(xs: seq<Address>, x: Address) returns (r: seq<Address>)
    ensures r == RemoveFirst(xs, x)
  {
    var i := 0;
    while i < |xs|
      invariant 0 <= i <= |xs|
      invariant x !in xs[..i]
    {
      if xs[i] == x {
        var j := FirstIndex(xs, x);
        assert j == i;
        return xs[..i] + xs[i + 1..];
      }
      assert xs[..i + 1] == xs[..i] + [xs[i]];
      i := i + 1;
    }
    assert xs[..i] == xs;
    return xs;
  }

  /** The employee's record in organisation `o` names department `d`. */
  predicate Assigned(employeeDept: map<(Address, nat), nat>, e: Address, o: nat, d: nat)
  {
    (e, o) in employeeDept && employeeDept[(e, o)] == d
  }

  /** The record of employee `e` in organisation `o`, if any, names a department of that organisation. */
  ghost predicate RecordOk(depts: map<nat, Department>, employeeDept: map<(Address, nat), nat>, e: Address, o: nat)
  {
    (e, o) in employeeDept ==> employeeDept[(e, o)] in depts && depts[employeeDept[(e, o)]].orgId == o
  }

  ghost predicate RecordsInOrg(depts: map<nat, Department>, employeeDept: map<(Address, nat), nat>)
  {
    forall e: Address, o: nat {:trigger RecordOk(depts, employeeDept, e, o)} :: RecordOk(depts, employeeDept, e, o)
  }

  /** The flag (d, e) is set exactly when `d` is a department and `e`'s record in its organisation names it. */
  ghost predicate FlagOk(depts: map<nat, Department>, employeeDept: map<(Address, nat), nat>,
                         employeeInDept: set<(nat, Address)>, d: nat, e: Address)
  {
    (d, e) in employeeInDept <==> d in depts && Assigned(employeeDept, e, depts[d].orgId, d)
  }

  ghost predicate FlagsMatch(depts: map<nat, Department>, employeeDept: map<(Address, nat), nat>,
                             employeeInDept: set<(nat, Address)>)
  {
    forall d: nat, e: Address {:trigger FlagOk(depts, employeeDept, employeeInDept, d, e)} ::
      FlagOk(depts, employeeDept, employeeInDept, d, e)
  }

  /** The list of department `d` of organisation `o` holds an employee once if the employee's record in `o` names `d`, and not at all otherwise. */
  ghost predicate ListMatches(list: seq<Address>, employeeDept: map<(Address, nat), nat>, o: nat, d: nat)
  {
    forall e: Address :: multiset(list)[e] == if Assigned(employeeDept, e, o, d) then 1 else 0
  }

  /** A department has a list, and the list matches the records. */
  ghost predicate ListOk(depts: map<nat, Department>, employeeDept: map<(Address, nat), nat>,
                         deptEmployees: map<nat, seq<Address>>, d: nat)
  {
    d in depts ==> d in deptEmployees && ListMatches(deptEmployees[d], employeeDept, depts[d].orgId, d)
  }

  ghost predicate ListsMatch(depts: map<nat, Department>, employeeDept: map<(Address, nat), nat>,
                             deptEmployees: map<nat, seq<Address>>)
  {
    forall d: nat {:trigger ListOk(depts, employeeDept, deptEmployees, d)} :: ListOk(depts, employeeDept, deptEmployees, d)
  }

  /**
   * The three records of employee membership agree: the per-organisation
   * record of an employee's department, the (department, employee) flags,
   * and each department's list of employees.
   */
  ghost predicate Membership(depts: map<nat, Department>, employeeDept: map<(Address, nat), nat>,
                             employeeInDept: set<(nat, Address)>, deptEmployees: map<nat, seq<Address>>)
  {
    && RecordsInOrg(depts, employeeDept)
    && FlagsMatch(depts, employeeDept, employeeInDept)
    && ListsMatch(depts, employeeDept, deptEmployees)
  }

  /** A new department, with an empty list and nobody recorded in it, keeps the bookkeeping consistent. */
  lemma NewDepartmentKeepsMembership(depts: map<nat, Department>, employeeDept: map<(Address, nat), nat>,
                                     employeeInDept: set<(nat, Address)>, deptEmployees: map<nat, seq<Address>>,
                                     id: nat, dept: Department)
    requires Membership(depts, employeeDept, employeeInDept, deptEmployees)
    requires id !in depts
    ensures Membership(depts[id := dept], employeeDept, employeeInDept, deptEmployees[id := []])
  {
    var depts' := depts[id := dept];
    var lists := deptEmployees[id := []];
    forall e: Address, o: nat
      ensures RecordOk(depts', employeeDept, e, o)
    {
      assert RecordOk(depts, employeeDept, e, o);
    }
    forall d: nat, e: Address
      ensures FlagOk(depts', employeeDept, employeeInDept, d, e)
    {
      assert FlagOk(depts, employeeDept, employeeInDept, d, e);
      assert RecordOk(depts, employeeDept, e, dept.orgId);
    }
    forall d: nat
      ensures ListOk(depts', employeeDept, lists, d)
    {
      if d == id {
        forall e: Address
          ensures multiset(lists[d])[e] == if Assigned(employeeDept, e, dept.orgId, d) then 1 else 0
        {
          assert RecordOk(depts, employeeDept, e, dept.orgId);
        }
      } else {
        assert ListOk(depts, employeeDept, deptEmployees, d);
      }
    }
  }

  /** Taking an employee out of the department its record names keeps the bookkeeping consistent once the record is dropped. */
  lemma UnassignKeepsMembership(depts: map<nat, Department>, employeeDept: map<(Address, nat), nat>,
                                employeeInDept: set<(nat, Address)>, deptEmployees: map<nat, seq<Address>>,
                                e: Address, o: nat)
    requires Membership(depts, employeeDept, employeeInDept, deptEmployees)
    requires (e, o) in employeeDept
    ensures var old_ := employeeDept[(e, o)];
            Membership(depts, employeeDept - {(e, o)}, employeeInDept - {(old_, e)},
                       deptEmployees[old_ := RemoveFirst(Lookup(deptEmployees, old_), e)])
  {
    var old_ := employeeDept[(e, o)];
    var records := employeeDept - {(e, o)};
    var flags := employeeInDept - {(old_, e)};
    var lists := deptEmployees[old_ := RemoveFirst(Lookup(deptEmployees, old_), e)];
    assert RecordOk(depts, employeeDept, e, o);
    forall e': Address, o': nat
      ensures RecordOk(depts, records, e', o')
    {
      assert RecordOk(depts, employeeDept, e', o');
    }
    forall d: nat, e': Address
      ensures FlagOk(depts, records, flags, d, e')
    {
      assert FlagOk(depts, employeeDept, employeeInDept, d, e');
    }
    forall d: nat
      ensures ListOk(depts, records, lists, d)
    {
      assert ListOk(depts, employeeDept, deptEmployees, d);
      if d in depts {
        UnassignListAt(deptEmployees[d], lists[d], employeeDept, e, o, depts[d].orgId, d);
      }
    }
  }

  /** One department's list after the unassignment. */
  lemma UnassignListAt(list: seq<Address>, newList: seq<Address>, employeeDept: map<(Address, nat), nat>,
                       e: Address, o: nat, o': nat, d: nat)
    requires ListMatches(list, employeeDept, o', d)
    requires (e, o) in employeeDept
    requires d == employeeDept[(e, o)] ==> o' == o && multiset(newList) == multiset(list) - multiset{e}
    requires d != employeeDept[(e, o)] ==> newList == list
    ensures ListMatches(newList, employeeDept - {(e, o)}, o', d)
  {
    forall e': Address
      ensures multiset(newList)[e'] == if Assigned(employeeDept - {(e, o)}, e', o', d) then 1 else 0
    {
      assert multiset(list)[e'] == if Assigned(employeeDept, e', o', d) then 1 else 0;
    }
  }

  /** Recording a department for an employee who has none in that organisation, and listing the employee there, keeps the bookkeeping consistent. */
  lemma AssignFreshKeepsMembership(depts: map<nat, Department>, employeeDept: map<(Address, nat), nat>,
                                   employeeInDept: set<(nat, Address)>, deptEmployees: map<nat, seq<Address>>,
                                   e: Address, o: nat, d: nat)
    requires Membership(depts, employeeDept, employeeInDept, deptEmployees)
    requires (e, o) !in employeeDept
    requires d in depts && depts[d].orgId == o
    ensures Membership(depts, employeeDept[(e, o) := d], employeeInDept + {(d, e)},
                       deptEmployees[d := Lookup(deptEmployees, d) + [e]])
  {
    var records := employeeDept[(e, o) := d];
    var flags := employeeInDept + {(d, e)};
    var lists := deptEmployees[d := Lookup(deptEmployees, d) + [e]];
    forall e': Address, o': nat
      ensures RecordOk(depts, records, e', o')
    {
      assert RecordOk(depts, employeeDept, e', o');
    }
    forall d': nat, e': Address
      ensures FlagOk(depts, records, flags, d', e')
    {
      assert FlagOk(depts, employeeDept, employeeInDept, d', e');
    }
    forall d': nat
      ensures ListOk(depts, records, lists, d')
    {
      assert ListOk(depts, employeeDept, deptEmployees, d');
      if d' in depts {
        AssignListAt(deptEmployees[d'], lists[d'], employeeDept, e, o, depts[d'].orgId, d', d);
      }
    }
  }

  /** One department's list after the assignment. */
  lemma AssignListAt(list: seq<Address>, newList: seq<Address>, employeeDept: map<(Address, nat), nat>,
                     e: Address, o: nat, o': nat, d': nat, d: nat)
    requires ListMatches(list, employeeDept, o', d')
    requires (e, o) !in employeeDept
    requires d' == d ==> o' == o && newList == list + [e]
    requires d' != d ==> newList == list
    ensures ListMatches(newList, employeeDept[(e, o) := d], o', d')
  {
    forall e': Address
      ensures multiset(newList)[e'] == if Assigned(employeeDept[(e, o) := d], e', o', d') then 1 else 0
    {
      assert multiset(list)[e'] == if Assigned(employeeDept, e', o', d') then 1 else 0;
    }
  }

  /** The department lists once the employee's previous department, if any, has let the employee go. */
  function Unlisted(employeeDept: map<(Address, nat), nat>, deptEmployees: map<nat, seq<Address>>,
                    e: Address, o: nat): map<nat, seq<Address>>
  {
    if (e, o) in employeeDept then
      var old_ := employeeDept[(e, o)];
      deptEmployees[old_ := RemoveFirst(Lookup(deptEmployees, old_), e)]
    else deptEmployees
  }

  /** The (department, employee) flags once the employee's previous department, if any, has let the employee go. */
  function Unflagged(employeeDept: map<(Address, nat), nat>, employeeInDept: set<(nat, Address)>,
                     e: Address, o: nat): set<(nat, Address)>
  {
    if (e, o) in employeeDept then employeeInDept - {(employeeDept[(e, o)], e)} else employeeInDept
  }

  /** Moving an employee to department `d` of organisation `o`, whether or not it had a department there, keeps the bookkeeping consistent. */
  lemma ReassignKeepsMembership(depts: map<nat, Department>, employeeDept: map<(Address, nat), nat>,
                                employeeInDept: set<(nat, Address)>, deptEmployees: map<nat, seq<Address>>,
                                e: Address, o: nat, d: nat)
    requires Membership(depts, employeeDept, employeeInDept, deptEmployees)
    requires d in depts && depts[d].orgId == o
    ensures var lists := Unlisted(employeeDept, deptEmployees, e, o);
            Membership(depts, employeeDept[(e, o) := d], Unflagged(employeeDept, employeeInDept, e, o) + {(d, e)},
                       lists[d := Lookup(lists, d) + [e]])
  {
    if (e, o) in employeeDept {
      var records := employeeDept - {(e, o)};
      UnassignKeepsMembership(depts, employeeDept, employeeInDept, deptEmployees, e, o);
      AssignFreshKeepsMembership(depts, records, Unflagged(employeeDept, employeeInDept, e, o),
                                 Unlisted(employeeDept, deptEmployees, e, o), e, o, d);
      assert records[(e, o) := d] == employeeDept[(e, o) := d];
    } else {
      AssignFreshKeepsMembership(depts, employeeDept, employeeInDept, deptEmployees, e, o, d);
    }
  }

  /** An employee whose record in an organisation names a department is listed there exactly once and in no other department of that organisation. */
  lemma ListedOnce(depts: map<nat, Department>, employeeDept: map<(Address, nat), nat>,
                   employeeInDept: set<(nat, Address)>, deptEmployees: map<nat, seq<Address>>,
                   e: Address, o: nat, d: nat)
    requires Membership(depts, employeeDept, employeeInDept, deptEmployees)
    requires (e, o) in employeeDept && employeeDept[(e, o)] == d
    ensures d in depts && depts[d].orgId == o && (d, e) in employeeInDept && d in deptEmployees
    ensures multiset(deptEmployees[d])[e] == 1
    ensures forall d' :: d' in depts && d' in deptEmployees && d' != d && depts[d'].orgId == o ==> e !in deptEmployees[d']
  {
    assert RecordOk(depts, employeeDept, e, o);
    assert FlagOk(depts, employeeDept, employeeInDept, d, e);
    assert ListOk(depts, employeeDept, deptEmployees, d);
    assert ListMatches(deptEmployees[d], employeeDept, o, d);
    forall d' | d' in depts && d' in deptEmployees && d' != d && depts[d'].orgId == o
      ensures e !in deptEmployees[d']
    {
      assert ListOk(depts, employeeDept, deptEmployees, d');
      assert multiset(deptEmployees[d'])[e] == 0;
    }
  }

  /** Within one organisation an employee is listed in at most one department. */
  lemma AtMostOneDepartment(depts: map<nat, Department>, employeeDept: map<(Address, nat), nat>,
                            employeeInDept: set<(nat, Address)>, deptEmployees: map<nat, seq<Address>>,
                            e: Address, d1: nat, d2: nat)
    requires Membership(depts, employeeDept, employeeInDept, deptEmployees)
    requires d1 in depts && d2 in depts && depts[d1].orgId == depts[d2].orgId
    requires d1 in deptEmployees && d2 in deptEmployees && e in deptEmployees[d1] && e in deptEmployees[d2]
    ensures d1 == d2
  {
    assert ListOk(depts, employeeDept, deptEmployees, d1);
    assert ListOk(depts, employeeDept, deptEmployees, d2);
    assert multiset(deptEmployees[d1])[e] > 0;
    assert multiset(deptEmployees[d2])[e] > 0;
  }

  /** Every organisation sits under its own id, below the counter, with a department list of its own departments. */
  ghost predicate OrgsValid(nextOrgId: nat, orgs: map<nat, Organization>, orgDepartments: map<nat, seq<nat>>,
                            depts: map<nat, Department>)
  {
    && orgDepartments.Keys == orgs.Keys
    && (forall o :: o in orgs ==> 1 <= o < nextOrgId && orgs[o].id == o)
    && (forall o, i :: o in orgDepartments && 0 <= i < |orgDepartments[o]| ==>
          orgDepartments[o][i] in depts && depts[orgDepartments[o][i]].orgId == o)
  }

  /**
   * Department `d`, if there is one, sits under its own id, below the
   * counter, in an existing organisation, and a parent it names is an older
   * department of the same organisation (so the hierarchy has no cycles).
   */
  ghost predicate DeptOk(nextDeptId: nat, orgs: map<nat, Organization>, depts: map<nat, Department>, d: nat)
  {
    d in depts ==>
      && 1 <= d < nextDeptId
      && depts[d].id == d
      && depts[d].orgId in orgs
      && (depts[d].parentId.Some? ==>
            && depts[d].parentId.value in depts
            && depts[d].parentId.value < d
            && depts[depts[d].parentId.value].orgId == depts[d].orgId)
  }

  /** Every department is well placed, and a children list holds departments whose parent it is. */
  ghost predicate DeptsValid(nextDeptId: nat, orgs: map<nat, Organization>, depts: map<nat, Department>,
                             deptChildren: map<nat, seq<nat>>)
  {
    && (forall d: nat {:trigger DeptOk(nextDeptId, orgs, depts, d)} :: DeptOk(nextDeptId, orgs, depts, d))
    && (forall p, i :: p in deptChildren && 0 <= i < |deptChildren[p]| ==>
          deptChildren[p][i] in depts && depts[deptChildren[p][i]].parentId == Some(p))
  }

  /** The children lists once a new department has been appended to its parent's list, if it has a parent. */
  function Children(deptChildren: map<nat, seq<nat>>, dept: Department): map<nat, seq<nat>>
  {
    match dept.parentId
    case None => deptChildren
    case Some(p) => deptChildren[p := Lookup(deptChildren, p) + [dept.id]]
  }

  /** A new organisation under the next id, with an empty department list, keeps every organisation and department well placed. */
  lemma NewOrganizationKeepsPlacement(nextOrgId: nat, nextDeptId: nat, orgs: map<nat, Organization>,
                                      depts: map<nat, Department>, orgDepartments: map<nat, seq<nat>>,
                                      deptChildren: map<nat, seq<nat>>, org: Organization)
    requires OrgsValid(nextOrgId, orgs, orgDepartments, depts) && DeptsValid(nextDeptId, orgs, depts, deptChildren)
    requires 1 <= nextOrgId && org.id == nextOrgId
    ensures nextOrgId !in orgs
    ensures OrgsValid(nextOrgId + 1, orgs[nextOrgId := org], orgDepartments[nextOrgId := []], depts)
    ensures DeptsValid(nextDeptId, orgs[nextOrgId := org], depts, deptChildren)
  {
    var orgs' := orgs[nextOrgId := org];
    forall d: nat
      ensures DeptOk(nextDeptId, orgs', depts, d)
    {
      assert DeptOk(nextDeptId, orgs, depts, d);
    }
  }

  /**
   * A new department under the next id, in an existing organisation and
   * under a parent of that organisation if it names one, appended to the
   * organisation's list and its parent's children, keeps every organisation
   * and department well placed.
   */
  lemma NewDepartmentKeepsPlacement(nextOrgId: nat, nextDeptId: nat, orgs: map<nat, Organization>,
                                    depts: map<nat, Department>, orgDepartments: map<nat, seq<nat>>,
                                    deptChildren: map<nat, seq<nat>>, dept: Department)
    requires OrgsValid(nextOrgId, orgs, orgDepartments, depts) && DeptsValid(nextDeptId, orgs, depts, deptChildren)
    requires 1 <= nextDeptId && dept.id == nextDeptId && dept.orgId in orgs
    requires dept.parentId.Some? ==> dept.parentId.value in depts && depts[dept.parentId.value].orgId == dept.orgId
    ensures nextDeptId !in depts
    ensures var depts' := depts[nextDeptId := dept];
            && OrgsValid(nextOrgId, orgs, orgDepartments[dept.orgId := Lookup(orgDepartments, dept.orgId) + [nextDeptId]], depts')
            && DeptsValid(nextDeptId + 1, orgs, depts', Children(deptChildren, dept))
  {
    var id := nextDeptId;
    var depts' := depts[id := dept];
    assert DeptOk(nextDeptId, orgs, depts, id);
    if dept.parentId.Some? {
      assert DeptOk(nextDeptId, orgs, depts, dept.parentId.value);
    }
    var next := id + 1;
    forall d: nat
      ensures DeptOk(next, orgs, depts', d)
    {
      assert DeptOk(nextDeptId, orgs, depts, d);
    }
    var lists := orgDepartments[dept.orgId := Lookup(orgDepartments, dept.orgId) + [id]];
    forall o, i | o in lists && 0 <= i < |lists[o]|
      ensures lists[o][i] in depts' && depts'[lists[o][i]].orgId == o
    {
      if o == dept.orgId && i < |Lookup(orgDepartments, o)| {
        assert lists[o][i] == orgDepartments[o][i];
      }
    }
    var children := Children(deptChildren, dept);
    forall p, i | p in children && 0 <= i < |children[p]|
      ensures children[p][i] in depts' && depts'[children[p][i]].parentId == Some(p)
    {
      if dept.parentId == Some(p) && i < |Lookup(deptChildren, p)| {
        assert children[p][i] == deptChildren[p][i];
      }
    }
  }

  class Registry {
    var initialized: bool
    var admin: Address
    var nextOrgId: nat
    var nextDeptId: nat
    var orgs: map<nat, Organization>
    var depts: map<nat, Department>
    var orgDepartments: map<nat, seq<nat>>
    var deptChildren: map<nat, seq<nat>>
    var employeeInDept: set<(nat, Address)>
    var employeeDept: map<(Address, nat), nat>
    var deptEmployees: map<nat, seq<Address>>

    ghost predicate Valid()
      reads this
    {
      && (initialized ==> 1 <= nextOrgId && 1 <= nextDeptId)
      && (!initialized ==> orgs == map[] && depts == map[])
      && OrgsValid(nextOrgId, orgs, orgDepartments, depts)
      && DeptsValid(nextDeptId, orgs, depts, deptChildren)
      && Membership(depts, employeeDept, employeeInDept, deptEmployees)
    }

    constructor ()
      ensures Valid()
      ensures !initialized && orgs == map[] && depts == map[]
    {
      initialized := false;
      admin := 0;
      nextOrgId := 0;
      nextDeptId := 0;
      orgs := map[];
      depts := map[];
      orgDepartments := map[];
      deptChildren := map[];
      employeeInDept := {};
      employeeDept := map[];
      deptEmployees := map[];
    }

    /** Records the admin and starts both id sequences at 1. */
    method Initialize(caller: Address) returns (r: Result<(), Error>)
      requires Valid()
      modifies this`initialized, this`admin, this`nextOrgId, this`nextDeptId
      ensures Valid()
      ensures r.Ok? <==> !old(initialized)
      ensures r.Err? ==> r.error == AlreadyInitialized && unchanged(this)
      ensures r.Ok? ==> initialized && admin == caller && nextOrgId == 1 && nextDeptId == 1
    {
      if initialized {
        return Err(AlreadyInitialized);
      }
      forall d: nat
        ensures DeptOk(1, orgs, depts, d)
      {
      }
      admin := caller;
      initialized := true;
      nextOrgId := 1;
      nextDeptId := 1;
      return Ok(());
    }

    /** Founds an organisation owned by the caller, under the next organisation id, with no departments. */
    method CreateOrganization(owner: Address, name: string, now: nat) returns (r: Result<nat, Error>)
      requires Valid()
      modifies this`nextOrgId, this`orgs, this`orgDepartments
      ensures Valid()
      ensures r.Err? <==> !initialized
      ensures r.Err? ==> r.error == NotInitialized && unchanged(this)
      ensures r.Ok? ==>
                && r.value == old(nextOrgId) && nextOrgId == old(nextOrgId) + 1
                && r.value !in old(orgs)
                && orgs == old(orgs)[r.value := Organization(r.value, name, owner, now)]
                && orgDepartments == old(orgDepartments)[r.value := []]
    {
      if !initialized {
        return Err(NotInitialized);
      }
      var id := nextOrgId;
      var org := Organization(id, name, owner, now);
      NewOrganizationKeepsPlacement(nextOrgId, nextDeptId, orgs, depts, orgDepartments, deptChildren, org);
      nextOrgId := id + 1;
      orgs := orgs[id := org];
      orgDepartments := orgDepartments[id := []];
      return Ok(id);
    }

    /**
     * The organisation's owner adds a department under the next department
     * id, appended to the organisation's list and, when it has a parent, to
     * the parent's children; it starts with no employees.
     */
    method CreateDepartment(caller: Address, orgId: nat, name: string, parentId: Option<nat>, now: nat)
      returns (r: Result<nat, Error>)
      requires Valid()
      modifies this`nextDeptId, this`depts, this`orgDepartments, this`deptChildren, this`deptEmployees
      ensures Valid()
      ensures !initialized ==> r == Err(NotInitialized)
      ensures initialized && orgId !in orgs ==> r == Err(OrganizationNotFound)
      ensures initialized && orgId in orgs && orgs[orgId].owner != caller ==> r == Err(NotOrganizationOwner)
      ensures initialized && orgId in orgs && orgs[orgId].owner == caller && parentId.Some? ==>
                (parentId.value !in old(depts) ==> r == Err(ParentNotFound))
                && (parentId.value in old(depts) && old(depts)[parentId.value].orgId != orgId ==> r == Err(ParentInOtherOrg))
      ensures r.Ok? <==>
                && initialized && orgId in orgs && orgs[orgId].owner == caller
                && (parentId.Some? ==> parentId.value in old(depts) && old(depts)[parentId.value].orgId == orgId)
      ensures r.Err? ==> unchanged(this)
      ensures r.Ok? ==>
                var dept := Department(r.value, orgId, name, parentId, now);
                && r.value == old(nextDeptId) && nextDeptId == r.value + 1
                && r.value !in old(depts)
                && depts == old(depts)[r.value := dept]
                && orgDepartments == old(orgDepartments)[orgId := Lookup(old(orgDepartments), orgId) + [r.value]]
                && deptChildren == Children(old(deptChildren), dept)
                && deptEmployees == old(deptEmployees)[r.value := []]
    {
      if !initialized {
        return Err(NotInitialized);
      }
      if orgId !in orgs {
        return Err(OrganizationNotFound);
      }
      if orgs[orgId].owner != caller {
        return Err(NotOrganizationOwner);
      }
      if parentId.Some? {
        if parentId.value !in depts {
          return Err(ParentNotFound);
        }
        if depts[parentId.value].orgId != orgId {
          return Err(ParentInOtherOrg);
        }
      }
      var id := nextDeptId;
      var dept := Department(id, orgId, name, parentId, now);
      NewDepartmentKeepsPlacement(nextOrgId, nextDeptId, orgs, depts, orgDepartments, deptChildren, dept);
      NewDepartmentKeepsMembership(depts, employeeDept, employeeInDept, deptEmployees, id, dept);
      nextDeptId := id + 1;
      depts := depts[id := dept];
      var siblings := Lookup(orgDepartments, orgId);
      orgDepartments := orgDepartments[orgId := siblings + [id]];
      if parentId.Some? {
        var p := parentId.value;
        var children := Lookup(deptChildren, p);
        deptChildren := deptChildren[p := children + [id]];
      }
      deptEmployees := deptEmployees[id := []];
      return Ok(id);
    }

    /** Takes the employee's flag for the department away and cuts the first occurrence out of its list. */
    method RemoveEmployeeFromDepartment(d: nat, employee: Address)
      modifies this`employeeInDept, this`deptEmployees
      ensures employeeInDept == old(employeeInDept) - {(d, employee)}
      ensures deptEmployees == old(deptEmployees)[d := RemoveFirst(Lookup(old(deptEmployees), d), employee)]
    {
      employeeInDept := employeeInDept - {(d, employee)};
      var employees := Lookup(deptEmployees, d);
      employees := RemoveFirstOccurrence(employees, employee);
      deptEmployees := deptEmployees[d := employees];
    }

    /**
     * The organisation's owner (re)assigns an employee to one of its
     * departments: the employee leaves the department previously recorded in
     * this organisation, if any, and is appended to the new one's list
     * (ListedOnce then says the employee is listed there exactly once and in
     * no other department of the organisation).
     */
    method AssignEmployee(caller: Address, orgId: nat, d: nat, employee: Address) returns (r: Result<(), Error>)
      requires Valid()
      modifies this`employeeInDept, this`employeeDept, this`deptEmployees
      ensures Valid()
      ensures !initialized ==> r == Err(NotInitialized)
      ensures initialized && orgId !in orgs ==> r == Err(OrganizationNotFound)
      ensures initialized && orgId in orgs && orgs[orgId].owner != caller ==> r == Err(NotOrganizationOwner)
      ensures initialized && orgId in orgs && orgs[orgId].owner == caller && d !in depts ==> r == Err(DepartmentNotFound)
      ensures r.Ok? <==> initialized && orgId in orgs && orgs[orgId].owner == caller && d in depts && depts[d].orgId == orgId
      ensures r.Err? ==> unchanged(this)
      ensures r.Ok? ==>
                var lists := Unlisted(old(employeeDept), old(deptEmployees), employee, orgId);
                && employeeDept == old(employeeDept)[(employee, orgId) := d]
                && employeeInDept == Unflagged(old(employeeDept), old(employeeInDept), employee, orgId) + {(d, employee)}
                && deptEmployees == lists[d := Lookup(lists, d) + [employee]]
    {
      if !initialized {
        return Err(NotInitialized);
      }
      if orgId !in orgs {
        return Err(OrganizationNotFound);
      }
      if orgs[orgId].owner != caller {
        return Err(NotOrganizationOwner);
      }
      if d !in depts {
        return Err(DepartmentNotFound);
      }
      if depts[d].orgId != orgId {
        return Err(DepartmentNotInOrg);
      }
      ReassignKeepsMembership(depts, employeeDept, employeeInDept, deptEmployees, employee, orgId, d);
      if (employee, orgId) in employeeDept {
        RemoveEmployeeFromDepartment(employeeDept[(employee, orgId)], employee);
      }
      employeeInDept := employeeInDept + {(d, employee)};
      employeeDept := employeeDept[(employee, orgId) := d];
      var employees := Lookup(deptEmployees, d);
      deptEmployees := deptEmployees[d := employees + [employee]];
      return Ok(());
    }

    /** The department the employee's record in the organisation names, if any; it is then listed there. */
    method EmployeeDepartment(employee: Address, orgId: nat) returns (r: Option<nat>)
      requires Valid()
      ensures r.Some? <==> (employee, orgId) in employeeDept
      ensures r.Some? ==> Assigned(employeeDept, employee, orgId, r.value)
                          && r.value in depts && r.value in deptEmployees && employee in deptEmployees[r.value]
    {
      if (employee, orgId) in employeeDept {
        var d := employeeDept[(employee, orgId)];
        ListedOnce(depts, employeeDept, employeeInDept, deptEmployees, employee, orgId, d);
        return Some(d);
      }
      return None;
    }

    /** The department's employee count, child departments and employees; a department never created reports nothing. */
    method DepartmentReport(d: nat) returns (count: nat, children: seq<nat>, employees: seq<Address>)
      requires Valid()
      ensures count == |employees|
      ensures employees == Lookup(deptEmployees, d)
      ensures children == Lookup(deptChildren, d)
      ensures forall c :: c in children ==> c in depts && depts[c].parentId == Some(d)
    {
      employees := Lookup(deptEmployees, d);
      children := Lookup(deptChildren, d);
      count := |employees|;
    }
  }
}
