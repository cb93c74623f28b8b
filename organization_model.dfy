/** The organization table: insertion and the two reads. */
module OrganizationModel {
  import opened Wrappers
  import opened Database

  /** `rows[0]` of `select * from organization where id = $1`. */
  function FindOrgById(rows: seq<Organization>, id: int): (r: Option<Organization>)
    ensures r.Some? ==> r.value in rows && r.value.id == id
    ensures r.None? <==> forall o :: o in rows ==> o.id != id
  {
    if rows == [] then None
    else if rows[0].id == id then Some(rows[0])
    else FindOrgById(rows[1..], id)
  }

  /** A row inserted with a fresh id is found by that id. */
  lemma {:induction false} FindAfterCreate(rows: seq<Organization>, o: Organization)
    requires forall u :: u in rows ==> u.id != o.id
    ensures FindOrgById(rows + [o], o.id) == Some(o)
  {
    if rows == [] {
      assert rows + [o] == [o];
    } else {
      assert (rows + [o])[1..] == rows[1..] + [o];
      FindAfterCreate(rows[1..], o);
    }
  }

  /** `createOrganization(name)`: insert one row with a fresh id and the
      given name and return it; a failing insert yields undefined. */
  method CreateOrganization(store: Store, name: string, fault: bool) returns (r: Option<Organization>)
    requires store.Valid()
    modifies store`organizations, store`nextOrganizationId
    ensures store.Valid()
    ensures r.Some? <==> !fault
    ensures fault ==> store.organizations == old(store.organizations)
    ensures fault ==> store.nextOrganizationId == old(store.nextOrganizationId)
    ensures !fault ==> r.value == Organization(old(store.nextOrganizationId), name)
    ensures !fault ==> store.organizations == old(store.organizations) + [r.value]
    ensures !fault ==> FindOrgById(store.organizations, r.value.id) == r
  {
    if fault {
      return None;
    }
    var o := Organization(store.nextOrganizationId, name);
    FindAfterCreate(store.organizations, o);
    store.organizations := store.organizations + [o];
    store.nextOrganizationId := store.nextOrganizationId + 1;
    r := Some(o);
  }

  /** `findOrganizationById(id)`: the row with that id, or undefined when
      there is none or the query fails. */
  function FindOrganizationById(store: Store, id: int, fault: bool): (r: Option<Organization>)
    reads store
    ensures fault ==> r.None?
    ensures r.Some? ==> r.value in store.organizations && r.value.id == id
    ensures !fault && r.None? ==> forall o :: o in store.organizations ==> o.id != id
  {
    if fault then None else FindOrgById(store.organizations, id)
  }

  /** `listAllOrganizations()`: every row, in table order; a failing query
      yields undefined. */
  function ListAllOrganizations(store: Store, fault: bool): (r: Option<seq<Organization>>)
    reads store
    ensures r.Some? <==> !fault
    ensures r.Some? ==> |r.value| == |store.organizations|
    ensures r.Some? ==> forall i :: 0 <= i < |r.value| ==> r.value[i] == store.organizations[i]
  {
    if fault then None else Some(store.organizations)
  }
}
