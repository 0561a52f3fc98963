/**
 * The Lego template page: groups of templates that open and close. The open
 * groups are a JavaScript `Set`, modelled as an object holding a set that
 * `add` and `delete` change in place.
 */
module Lego {

  /** A JavaScript `Set` of group names. */
  class GroupSet {
    var elems: set<string>

    /** `new Set()`. */
    constructor ()
      ensures elems == {}
    {
      elems := {};
    }

    /** `new Set(other)`: a new set with the same members. */
    constructor Copy(other: GroupSet)
      ensures elems == other.elems
    {
      elems := other.elems;
    }

    method Has(x: string) returns (b: bool)
      ensures b <==> x in elems
    {
      b := x in elems;
    }

    method Add(x: string)
      modifies this
      ensures elems == old(elems) + {x}
    {
      elems := elems + {x};
    }

    method Delete(x: string)
      modifies this
      ensures elems == old(elems) - {x}
    {
      elems := elems - {x};
    }
  }

  /** The set after toggling `key`: a member leaves, a non-member joins, nothing else changes. */
  function Toggled(s: set<string>, key: string): (r: set<string>)
    ensures key in r <==> key !in s
    ensures forall k :: k != key ==> (k in r <==> k in s)
  {
    if key in s then s - {key} else s + {key}
  }

  /** Toggling a group twice leaves the open groups as they were. */
  lemma ToggleTwice(s: set<string>, key: string)
    ensures Toggled(Toggled(s, key), key) == s
  {
  }

  /**
   * `toggleGroup`: the set is copied first, then the key is deleted from or
   * added to the copy; the set passed in is not changed.
   */
  method ToggleGroup(openGroups: GroupSet, groupName: string) returns (newOpenGroups: GroupSet)
    ensures fresh(newOpenGroups)
    ensures newOpenGroups.elems == Toggled(openGroups.elems, groupName)
    ensures openGroups.elems == old(openGroups.elems)
  {
    newOpenGroups := new GroupSet.Copy(openGroups);
    var has := newOpenGroups.Has(groupName);
    if has {
      newOpenGroups.Delete(groupName);
    } else {
      newOpenGroups.Add(groupName);
    }
  }

  /** A group shows open exactly when its key is in the set (`isOpen={openGroups.has(key)}`). */
  method IsOpen(openGroups: GroupSet, key: string) returns (b: bool)
    ensures b <==> key in openGroups.elems
  {
    b := openGroups.Has(key);
  }
}
