/**
 * `filter_list_by_attribute(includes, excludes, attribute)`: the elements of `includes`
 * whose attribute value is not the attribute value of any element of `excludes`.
 * The attribute read by `getattr` is the function `attr`.
 */
module AttributeFilter {
  import opened Sequences

  /** The set of attribute values of the `excludes` elements, which `filter_list_by_attribute` builds first. */
  function ExcludedValues<T, K>(excludes: seq<T>, attr: T -> K): set<K>
  {
    set i | 0 <= i < |excludes| :: attr(excludes[i])
  }

  /** The condition of the comprehension: the attribute value is not excluded. */
  function NotExcluded<T, K>(excluded: set<K>, attr: T -> K): T -> bool
  {
    x => attr(x) !in excluded
  }

  function FilterListByAttribute<T, K(==)>(includes: seq<T>, excludes: seq<T>, attr: T -> K): seq<T>
  {
    Filter(includes, NotExcluded(ExcludedValues(excludes, attr), attr))
  }

  /**
   * The result is an order-preserving subsequence of `includes`; an element is in it exactly
   * when it is in `includes` and no element of `excludes` has the same attribute value, and
   * then as many times as in `includes`.
   */
  lemma FilterListByAttributeKeeps<T, K>(includes: seq<T>, excludes: seq<T>, attr: T -> K)
    ensures IsSubsequence(FilterListByAttribute(includes, excludes, attr), includes)
    ensures forall x ::
      x in FilterListByAttribute(includes, excludes, attr) <==>
        x in includes && forall e :: e in excludes ==> attr(e) != attr(x)
    ensures forall x ::
      multiset(FilterListByAttribute(includes, excludes, attr))[x]
        == (if attr(x) in ExcludedValues(excludes, attr) then 0 else multiset(includes)[x])
  {
    var excluded := ExcludedValues(excludes, attr);
    var p := NotExcluded(excluded, attr);
    FilterIsSubsequence(includes, p);
    forall x ensures x in Filter(includes, p) <==> x in includes && forall e :: e in excludes ==> attr(e) != attr(x) {
      FilterMembership(includes, p, x);
      if attr(x) in excluded {
        var i :| 0 <= i < |excludes| && attr(excludes[i]) == attr(x);
        assert excludes[i] in excludes;
      } else {
        forall e | e in excludes ensures attr(e) != attr(x) {
          var i :| 0 <= i < |excludes| && excludes[i] == e;
        }
      }
    }
    forall x ensures multiset(Filter(includes, p))[x] == if attr(x) in excluded then 0 else multiset(includes)[x] {
      FilterMultiplicity(includes, p, x);
    }
  }

  /** With nothing to exclude, every element is kept. */
  lemma FilterListByAttributeNoExcludes<T, K>(includes: seq<T>, attr: T -> K)
    ensures FilterListByAttribute(includes, [], attr) == includes
  {
    FilterKeepsAll(includes, NotExcluded(ExcludedValues([], attr), attr));
  }

  /** Filtering again with the same exclusions changes nothing. */
  lemma FilterListByAttributeIdempotent<T, K>(includes: seq<T>, excludes: seq<T>, attr: T -> K)
    ensures FilterListByAttribute(FilterListByAttribute(includes, excludes, attr), excludes, attr)
      == FilterListByAttribute(includes, excludes, attr)
  {
    FilterIdempotent(includes, NotExcluded(ExcludedValues(excludes, attr), attr));
  }

  /** Only the attribute values of `excludes` matter: duplicates and order among them make no difference. */
  lemma FilterListByAttributeExcludedSet<T, K>(includes: seq<T>, excludes1: seq<T>, excludes2: seq<T>, attr: T -> K)
    requires forall e :: e in excludes1 <==> e in excludes2
    ensures FilterListByAttribute(includes, excludes1, attr) == FilterListByAttribute(includes, excludes2, attr)
  {
    var s1, s2 := ExcludedValues(excludes1, attr), ExcludedValues(excludes2, attr);
    forall v | v in s1 ensures v in s2 {
      var i :| 0 <= i < |excludes1| && attr(excludes1[i]) == v;
      assert excludes1[i] in excludes2;
      var j :| 0 <= j < |excludes2| && excludes2[j] == excludes1[i];
    }
    forall v | v in s2 ensures v in s1 {
      var j :| 0 <= j < |excludes2| && attr(excludes2[j]) == v;
      assert excludes2[j] in excludes1;
      var i :| 0 <= i < |excludes1| && excludes1[i] == excludes2[j];
    }
    assert s1 == s2;
  }

  /** A resource with an `id` attribute. */
  datatype Resource = Resource(id: int)

  /** Including ids 1, 2, 3 and excluding id 2 leaves ids 1 and 3. */
  lemma FilterListByAttributeExample()
    ensures FilterListByAttribute([Resource(1), Resource(2), Resource(3)], [Resource(2)], (r: Resource) => r.id)
      == [Resource(1), Resource(3)]
  {
    var attr := (r: Resource) => r.id;
    var includes := [Resource(1), Resource(2), Resource(3)];
    assert ExcludedValues([Resource(2)], attr) == {2} by {
      assert attr([Resource(2)][0]) == 2;
    }
    var p := NotExcluded({2}, attr);
    assert includes[1..] == [Resource(2), Resource(3)] && includes[1..][1..] == [Resource(3)];
    assert Filter(includes[1..][1..], p) == [Resource(3)] + Filter([], p);
  }
}
