/**
 Name selectors of internal/config/types.go: membership in sorted lists by binary search,
 and the decision whether a namespace is in scope.
 */
module NameLists {
  import opened ConfigTypes
  import opened Strings

  /** `sort.SearchStrings`, then a look: on a sorted list it is membership. */
  method ContainsSorted(values: seq<string>, value: string) returns (found: bool)
    requires Ascending(values)
    ensures found <==> value in values
  {
    var low, high := 0, |values|;
    while low < high
      invariant 0 <= low <= high <= |values|
      invariant forall k :: 0 <= k < low ==> Less(values[k], value)
      invariant forall k :: high <= k < |values| ==> !Less(values[k], value)
    {
      var middle := (low + high) / 2;
      if Less(values[middle], value) {
        LowerHalf(values, value, middle);
        low := middle + 1;
      } else {
        UpperHalf(values, value, middle);
        high := middle;
      }
    }
    found := low < |values| && values[low] == value;
    OnlyAt(values, value, low);
  }

  lemma LowerHalf(values: seq<string>, value: string, middle: nat)
    requires Ascending(values) && middle < |values| && Less(values[middle], value)
    ensures forall k :: 0 <= k <= middle ==> Less(values[k], value)
  {
    forall k | 0 <= k < middle ensures Less(values[k], value) {
      LessIsTransitive(values[k], values[middle], value);
    }
  }

  lemma UpperHalf(values: seq<string>, value: string, middle: nat)
    requires Ascending(values) && middle < |values| && !Less(values[middle], value)
    ensures forall k :: middle <= k < |values| ==> !Less(values[k], value)
  {
    forall k | middle < k < |values| ensures !Less(values[k], value) {
      if Less(values[k], value) {
        LessIsTransitive(values[middle], values[k], value);
      }
    }
  }

  lemma OnlyAt(values: seq<string>, value: string, at: nat)
    requires Ascending(values) && at <= |values|
    requires forall k :: 0 <= k < at ==> Less(values[k], value)
    requires forall k :: at <= k < |values| ==> !Less(values[k], value)
    ensures value in values <==> at < |values| && values[at] == value
  {
    LessIsIrreflexive(value);
    assert forall k :: at < k < |values| ==> Less(values[at], values[k]);
  }

  predicate Matches(selector: NameSelector, name: string) {
    selector.matchAll || name in selector.names
  }

  /** Selected and not excluded. */
  predicate MatchesNamespace(snapshot: ConfigurationSnapshot, name: string) {
    Matches(snapshot.namespaces, name) && name !in snapshot.excludedNamespaces
  }

  /** Every name list of the snapshot is sorted, as the parser leaves it. */
  ghost predicate SortedLists(snapshot: ConfigurationSnapshot) {
    && Ascending(snapshot.namespaces.names)
    && Ascending(snapshot.excludedNamespaces)
    && Ascending(snapshot.serviceAccounts.names)
  }

  /** The namespace gate as the program computes it. */
  method CheckNamespace(snapshot: ConfigurationSnapshot, name: string) returns (inScope: bool)
    requires SortedLists(snapshot)
    ensures inScope <==> MatchesNamespace(snapshot, name)
  {
    var selected := snapshot.namespaces.matchAll;
    if !selected {
      selected := ContainsSorted(snapshot.namespaces.names, name);
    }
    var excluded := ContainsSorted(snapshot.excludedNamespaces, name);
    inScope := selected && !excluded;
  }
}
