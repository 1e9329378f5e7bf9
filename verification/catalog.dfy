/**
 * The service catalogue as the booking dialogue reads it: the active services,
 * one service looked up by id, and the service picker that groups services by
 * category (the `reduce` / `map` / `slice` in the `choose_service` branch).
 */
module Catalog {
  import opened Wrappers
  import opened Text
  import opened Lists

  /** A service record; `dbId` stands for the record's `_id`. */
  datatype Service = Service(
    dbId: nat,
    category: string,
    serviceId: string,
    title: string,
    description: string,
    duration: nat,
    price: nat,
    loyaltyPoints: nat,
    isActive: bool)

  /** find({ isActive: true }): the active services in stored order. */
  function ActiveServices(services: seq<Service>): (r: seq<Service>)
    ensures forall s :: s in r <==> s in services && s.isActive
    ensures |r| <= |services|
    decreases |services|
  {
    if services == [] then []
    else
      var rest := ActiveServices(services[..|services| - 1]);
      var last := services[|services| - 1];
      assert services == services[..|services| - 1] + [last];
      if last.isActive then rest + [last] else rest
  }

  /** findOne({ serviceId: id, isActive: true }): the first active service with that id. */
  function FindActiveService(services: seq<Service>, id: string): (r: Option<Service>)
    ensures r.Some? ==> r.value in services && r.value.serviceId == id && r.value.isActive
    ensures r.None? ==> forall s :: s in services && s.isActive ==> s.serviceId != id
    decreases |services|
  {
    if services == [] then None
    else if services[0].serviceId == id && services[0].isActive then Some(services[0])
    else FindActiveService(services[1..], id)
  }

  // ---------------------------------------------------------------------
  // Grouping by category, as the reduce builds it
  // ---------------------------------------------------------------------

  datatype Group = Group(category: string, members: seq<Service>)

  /** The index of the group for a category, if the accumulator has one. */
  function GroupIndex(groups: seq<Group>, category: string): (r: Option<nat>)
    ensures r.Some? ==> r.value < |groups| && groups[r.value].category == category
    ensures r.Some? ==> forall j :: 0 <= j < r.value ==> groups[j].category != category
    ensures r.None? ==> forall j :: 0 <= j < |groups| ==> groups[j].category != category
    decreases |groups|
  {
    if groups == [] then None
    else if groups[0].category == category then Some(0)
    else
      match GroupIndex(groups[1..], category)
      case None => None
      case Some(k) => Some(k + 1)
  }

  /** One step of the reduce: append the service to its category's group,
      opening a new group at the end for a category not seen before. */
  function AddToGroups(groups: seq<Group>, s: Service): seq<Group>
  {
    match GroupIndex(groups, s.category)
    case Some(i) => groups[i := Group(s.category, groups[i].members + [s])]
    case None => groups + [Group(s.category, [s])]
  }

  /** services.reduce(addToGroups, {}) followed by Object.entries. */
  function GroupByCategory(services: seq<Service>): seq<Group>
    decreases |services|
  {
    if services == [] then []
    else AddToGroups(GroupByCategory(services[..|services| - 1]), services[|services| - 1])
  }

  // Reference definition of the grouping: the distinct categories in order of
  // first appearance, each with the services of that category in stored order.

  function Categories(services: seq<Service>): seq<string>
    decreases |services|
  {
    if services == [] then []
    else
      var cs := Categories(services[..|services| - 1]);
      var c := services[|services| - 1].category;
      if c in cs then cs else cs + [c]
  }

  function InCategory(services: seq<Service>, category: string): seq<Service>
    decreases |services|
  {
    if services == [] then []
    else
      var last := services[|services| - 1];
      InCategory(services[..|services| - 1], category) + (if last.category == category then [last] else [])
  }

  ghost predicate Distinct(cs: seq<string>)
  {
    forall i, j :: 0 <= i < j < |cs| ==> cs[i] != cs[j]
  }

  ghost function ReferenceGroups(services: seq<Service>): seq<Group>
  {
    var cs := Categories(services);
    seq(|cs|, i requires 0 <= i < |cs| => Group(cs[i], InCategory(services, cs[i])))
  }

  /** A category is listed exactly when some service has it, and each only once. */
  lemma {:induction false} CategoriesSpec(services: seq<Service>)
    ensures Distinct(Categories(services))
    ensures forall c :: c in Categories(services) <==> exists s :: s in services && s.category == c
    ensures forall c :: c !in Categories(services) ==> InCategory(services, c) == []
    decreases |services|
  {
    if services != [] {
      var p := services[..|services| - 1];
      var last := services[|services| - 1];
      assert services == p + [last];
      CategoriesSpec(p);
      forall c
        ensures c in Categories(services) <==> exists s :: s in services && s.category == c
      {
        if c in Categories(services) && c !in Categories(p) {
          assert last in services;
        }
        if exists s :: s in services && s.category == c {
          var s :| s in services && s.category == c;
          if s != last {
            assert s in p;
          }
        }
      }
    }
  }

  /** The reduce builds exactly the reference grouping. */
  lemma {:induction false} GroupByCategoryIsReference(services: seq<Service>)
    ensures GroupByCategory(services) == ReferenceGroups(services)
    decreases |services|
  {
    if services != [] {
      GroupByCategoryIsReference(services[..|services| - 1]);
      AddToReferenceGroups(services);
    }
  }

  /** One step of the reduce extends the reference grouping of a prefix to the
      reference grouping of the prefix and the next service. */
  lemma AddToReferenceGroups(services: seq<Service>)
    requires services != []
    ensures var p := services[..|services| - 1];
      AddToGroups(ReferenceGroups(p), services[|services| - 1]) == ReferenceGroups(services)
  {
    var p := services[..|services| - 1];
    var last := services[|services| - 1];
    var c := last.category;
    CategoriesSpec(p);
    var g := ReferenceGroups(p);
    var cs := Categories(p);
    var result := AddToGroups(g, last);
    var expected := ReferenceGroups(services);
    match GroupIndex(g, c)
    case Some(i) => {
      assert cs[i] == c;
      assert Categories(services) == cs;
      assert |result| == |expected|;
      forall k | 0 <= k < |result| ensures result[k] == expected[k] {
        if k == i {
          assert result[k] == Group(c, InCategory(p, c) + [last]);
        } else {
          assert cs[k] != c;
        }
      }
    }
    case None => {
      forall k | 0 <= k < |cs| ensures cs[k] != c {
        assert g[k].category == cs[k];
      }
      assert Categories(services) == cs + [c];
      assert InCategory(p, c) == [];
      assert |result| == |expected|;
      forall k | 0 <= k < |result| ensures result[k] == expected[k] {
        if k < |cs| {
          assert (cs + [c])[k] == cs[k] != c;
        }
      }
    }
  }

  // ---------------------------------------------------------------------
  // The service picker
  // ---------------------------------------------------------------------

  /** The row for a service: id, title cut to 24 characters, description cut to 72. */
  function ServiceRow(s: Service): (r: Row)
    ensures r.id == s.serviceId
    ensures |r.title| == Min(24, |s.title|) && r.title == s.title[..|r.title|]
    ensures |r.description| == Min(72, |s.description|) && r.description == s.description[..|r.description|]
  {
    Row(s.serviceId, Substring(s.title, 0, 24), Substring(s.description, 0, 72))
  }

  function ServiceRows(services: seq<Service>): (rows: seq<Row>)
    ensures |rows| == |services|
    ensures forall i :: 0 <= i < |services| ==> rows[i] == ServiceRow(services[i])
  {
    seq(|services|, i requires 0 <= i < |services| => ServiceRow(services[i]))
  }

  /** The sections of the service picker, at most 10 of them. */
  function ServiceSections(services: seq<Service>): seq<Section>
  {
    var groups := GroupByCategory(services);
    var sections := seq(|groups|, i requires 0 <= i < |groups| =>
      Section(groups[i].category, ServiceRows(groups[i].members)));
    sections[..Min(10, |sections|)]
  }

  /** The picker lists the first (at most ten) categories in order of first
      appearance, under distinct titles, each with the rows of exactly the
      services of that category in stored order. */
  lemma ServiceSectionsSpec(services: seq<Service>)
    ensures |ServiceSections(services)| == Min(10, |Categories(services)|)
    ensures forall i, j :: 0 <= i < j < |ServiceSections(services)| ==>
      ServiceSections(services)[i].title != ServiceSections(services)[j].title
    ensures forall i :: 0 <= i < |ServiceSections(services)| ==>
      var sec := ServiceSections(services)[i];
      sec.title == Categories(services)[i] &&
      sec.rows == ServiceRows(InCategory(services, sec.title))
  {
    GroupByCategoryIsReference(services);
    CategoriesSpec(services);
  }

  /** With at most ten categories every service appears in the picker. */
  lemma EveryServiceListed(services: seq<Service>, s: Service)
    requires s in services
    requires |Categories(services)| <= 10
    ensures exists i :: (0 <= i < |ServiceSections(services)| && ServiceRow(s) in ServiceSections(services)[i].rows)
  {
    var sections := ServiceSections(services);
    var cs := Categories(services);
    ServiceSectionsSpec(services);
    CategoriesSpec(services);
    assert s.category in cs;
    var i :| 0 <= i < |cs| && cs[i] == s.category;
    assert i < |sections|;
    var members := InCategory(services, s.category);
    assert sections[i].rows == ServiceRows(members);
    InCategoryMember(services, s);
    var k :| 0 <= k < |members| && members[k] == s;
    assert sections[i].rows[k] == ServiceRow(s);
  }

  lemma {:induction false} InCategoryMember(services: seq<Service>, s: Service)
    requires s in services
    ensures s in InCategory(services, s.category)
    decreases |services|
  {
    var p := services[..|services| - 1];
    var last := services[|services| - 1];
    assert services == p + [last];
    if s != last {
      InCategoryMember(p, s);
    }
  }
}
