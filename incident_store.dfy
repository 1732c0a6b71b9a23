/**
 * The incident table of dynamodb_service.py. The DynamoDB table is a map
 * from incident id to stored item; the generated uuid and the creation
 * time are passed in, and a scan lists the table in an unspecified order.
 */
module IncidentStore {
  import opened Wrappers
  import opened Text
  import Json

  /** The `incident_data` dict posted by the dashboard; a key absent from it is None. */
  datatype IncidentData = IncidentData(
    timestamp: Option<string>,
    incidentReport: Option<Json.Value>,
    selectedServices: Option<Json.Value>,
    notes: Option<Json.Value>)

  /** A stored item, with the table's snake_case attribute names. */
  datatype Item = Item(
    incidentId: string,
    timestamp: string,
    incidentReport: Json.Value,
    selectedServices: Json.Value,
    notes: Json.Value,
    createdAt: string)

  /** The KeyError raised while the item is built, naming the missing key. */
  datatype SaveError = MissingKey(key: string)

  /** The answer of a scan; `None` when it carries no `Items`. */
  datatype ScanResponse = ScanResponse(items: Option<seq<Item>>)

  /** Builds the item save_incident puts, looking the keys up in the order the dict literal does. */
  function BuildItem(data: IncidentData, id: string, createdAt: string): (r: Result<Item, SaveError>)
    ensures r.Ok? <==>
      data.timestamp.Some? && data.incidentReport.Some? && data.selectedServices.Some? && data.notes.Some?
    ensures r.Ok? ==>
      && r.value.incidentId == id
      && r.value.timestamp == data.timestamp.value
      && r.value.incidentReport == data.incidentReport.value
      && r.value.selectedServices == data.selectedServices.value
      && r.value.notes == data.notes.value
      && r.value.createdAt == createdAt
    ensures data.timestamp.None? ==> r == Err(MissingKey("timestamp"))
    ensures data.timestamp.Some? && data.incidentReport.None? ==> r == Err(MissingKey("incidentReport"))
    ensures data.timestamp.Some? && data.incidentReport.Some? && data.selectedServices.None? ==>
      r == Err(MissingKey("selectedServices"))
    ensures data.timestamp.Some? && data.incidentReport.Some? && data.selectedServices.Some? && data.notes.None? ==>
      r == Err(MissingKey("notes"))
  {
    if data.timestamp.None? then Err(MissingKey("timestamp"))
    else if data.incidentReport.None? then Err(MissingKey("incidentReport"))
    else if data.selectedServices.None? then Err(MissingKey("selectedServices"))
    else if data.notes.None? then Err(MissingKey("notes"))
    else Ok(Item(id, data.timestamp.value, data.incidentReport.value, data.selectedServices.value,
                 data.notes.value, createdAt))
  }

  /** Later items have a timestamp no greater than earlier ones (Python's str order). */
  predicate SortedDescending(s: seq<Item>)
  {
    forall m, n :: 0 <= m < n < |s| ==> LexLe(s[n].timestamp, s[m].timestamp)
  }

  /**
   * `items.sort(key=lambda x: x['timestamp'], reverse=True)`, in place:
   * an insertion sort that moves each item left past the items with a
   * strictly smaller timestamp.
   */
  method SortByTimestampDescending(a: array<Item>)
    modifies a
    ensures SortedDescending(a[..])
    ensures multiset(a[..]) == multiset(old(a[..]))
  {
    if a.Length == 0 {
      return;
    }
    var i := 1;
    while i < a.Length
      invariant 1 <= i <= a.Length
      invariant SortedDescending(a[..i])
      invariant multiset(a[..]) == multiset(old(a[..]))
    {
      InsertLeft(a, i);
      i := i + 1;
    }
    assert a[..a.Length] == a[..];
  }

  /** Moves `a[i]` left into the sorted prefix `a[..i]`, giving a sorted `a[..i + 1]`. */
  method InsertLeft(a: array<Item>, i: nat)
    requires 0 < i < a.Length
    requires SortedDescending(a[..i])
    modifies a
    ensures SortedDescending(a[..i + 1])
    ensures forall k :: i < k < a.Length ==> a[k] == old(a[k])
    ensures multiset(a[..]) == multiset(old(a[..]))
  {
    var j := i;
    while j > 0 && !LexLe(a[j].timestamp, a[j - 1].timestamp)
      invariant 0 <= j <= i
      invariant forall k :: i < k < a.Length ==> a[k] == old(a[k])
      invariant forall m, n :: 0 <= m < n <= i && m != j && n != j ==> LexLe(a[n].timestamp, a[m].timestamp)
      invariant forall n :: j < n <= i ==> !LexLe(a[j].timestamp, a[n].timestamp)
      invariant multiset(a[..]) == multiset(old(a[..]))
    {
      SwapAt(a, j);
      j := j - 1;
    }
    InsertedSorted(a[..i + 1], j);
  }

  /** Exchanges `a[j - 1]` and `a[j]`. */
  method SwapAt(a: array<Item>, j: nat)
    requires 0 < j < a.Length
    modifies a
    ensures a[j - 1] == old(a[j]) && a[j] == old(a[j - 1])
    ensures forall k :: 0 <= k < a.Length && k != j - 1 && k != j ==> a[k] == old(a[k])
    ensures multiset(a[..]) == multiset(old(a[..]))
  {
    a[j - 1], a[j] := a[j], a[j - 1];
  }

  /** Once the moved item is no greater than its left neighbour, the prefix is sorted. */
  lemma InsertedSorted(s: seq<Item>, j: nat)
    requires j < |s|
    requires forall m, n :: 0 <= m < n < |s| && m != j && n != j ==> LexLe(s[n].timestamp, s[m].timestamp)
    requires forall n :: j < n < |s| ==> !LexLe(s[j].timestamp, s[n].timestamp)
    requires j > 0 ==> LexLe(s[j].timestamp, s[j - 1].timestamp)
    ensures SortedDescending(s)
  {
    forall m, n | 0 <= m < n < |s| ensures LexLe(s[n].timestamp, s[m].timestamp) {
      if n == j {
        if m < j - 1 {
          LexLeTransitive(s[j].timestamp, s[j - 1].timestamp, s[m].timestamp);
        }
      } else if m == j {
        LexLeTotal(s[j].timestamp, s[n].timestamp);
      }
    }
  }

  /**
   * get_all_incidents once the scan has answered: the `Items` of the answer
   * (none if it has no `Items`), most recent timestamp first.
   */
  method IncidentsFromScan(resp: ScanResponse) returns (items: seq<Item>)
    ensures resp.items.None? ==> items == []
    ensures resp.items.Some? ==> multiset(items) == multiset(resp.items.value)
    ensures SortedDescending(items)
  {
    var scanned := if resp.items.Some? then resp.items.value else [];
    var a := new Item[|scanned|](k requires 0 <= k < |scanned| => scanned[k]);
    assert a[..] == scanned;
    SortByTimestampDescending(a);
    items := a[..];
  }

  /** The EmergencyIncidents table. */
  class IncidentTable {
    var items: map<string, Item>

    /** Every item is stored under its own incident id. */
    ghost predicate Valid()
      reads this
    {
      forall id :: id in items ==> items[id].incidentId == id
    }

    /** Connecting to the table: the items already stored in it, each under its own id. */
    constructor (existing: map<string, Item>)
      requires forall id :: id in existing ==> existing[id].incidentId == id
      ensures Valid() && items == existing
    {
      items := existing;
    }

    /**
     * save_incident: build the item under the generated id and put it; a
     * missing key raises before the put, leaving the table as it was. A put
     * under an id already present replaces that item, as put_item does.
     */
    method SaveIncident(data: IncidentData, generatedId: string, createdAt: string) returns (r: Result<(), SaveError>)
      requires Valid()
      modifies this
      ensures Valid()
      ensures r.Ok? <==> BuildItem(data, generatedId, createdAt).Ok?
      ensures r.Err? ==> items == old(items) && r.error == BuildItem(data, generatedId, createdAt).error
      ensures r.Ok? ==> items == old(items)[generatedId := BuildItem(data, generatedId, createdAt).value]
      ensures r.Ok? && generatedId !in old(items) ==> |items| == |old(items)| + 1
    {
      var item := BuildItem(data, generatedId, createdAt);
      if item.Err? {
        return Err(item.error);
      }
      items := items[generatedId := item.value];
      r := Ok(());
    }

    /** table.scan(): every stored item once, in an order the table chooses. */
    method Scan() returns (resp: ScanResponse)
      requires Valid()
      ensures resp.items.Some?
      ensures multiset(resp.items.value) == multiset(items.Values)
    {
      var remaining := items.Keys;
      var listed: seq<Item> := [];
      while remaining != {}
        invariant remaining <= items.Keys
        invariant multiset(listed) == multiset(set id | id in items.Keys - remaining :: items[id])
        decreases remaining
      {
        var id :| id in remaining;
        ghost var done := set k | k in items.Keys - remaining :: items[k];
        assert items[id] !in done;
        assert (set k | k in items.Keys - (remaining - {id}) :: items[k]) == done + {items[id]};
        listed := listed + [items[id]];
        remaining := remaining - {id};
      }
      assert (set k | k in items.Keys - remaining :: items[k]) == items.Values;
      resp := ScanResponse(Some(listed));
    }

    /** get_all_incidents: every stored item exactly once, most recent timestamp first. */
    method GetAllIncidents() returns (result: seq<Item>)
      requires Valid()
      ensures multiset(result) == multiset(items.Values)
      ensures SortedDescending(result)
    {
      var resp := Scan();
      result := IncidentsFromScan(resp);
    }
  }

  /** A save followed by a listing shows the new item, with its fields renamed. */
  lemma SavedItemListed(old_: map<string, Item>, data: IncidentData, id: string, createdAt: string, listing: seq<Item>)
    requires BuildItem(data, id, createdAt).Ok?
    requires multiset(listing) == multiset(old_[id := BuildItem(data, id, createdAt).value].Values)
    ensures exists k ::
      0 <= k < |listing| && listing[k].incidentId == id &&
      listing[k].timestamp == data.timestamp.value && listing[k].notes == data.notes.value
  {
    var it := BuildItem(data, id, createdAt).value;
    var m := old_[id := it];
    assert id in m && m[id] == it;
    assert it in m.Values;
    assert it in multiset(listing);
    var k :| 0 <= k < |listing| && listing[k] == it;
  }
}
