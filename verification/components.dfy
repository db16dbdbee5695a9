/** Restricting the schema to one component: the other top-level components
    are deleted from the schema's `properties` before the template is built. */
module Components {
  import opened Base
  import opened Seqs
  import opened Config

  /** The components other than `component`, in declaration order. */
  function OtherComponents(component: string): (others: seq<string>)
    ensures forall k :: k in others <==> k in Components && k != component
    ensures Distinct(others)
  {
    Without(Components, component)
  }

  /** `xs` without the elements equal to `x`, in order. */
  function Without(xs: seq<string>, x: string): (r: seq<string>)
    ensures forall k :: k in r <==> k in xs && k != x
    ensures Distinct(xs) ==> Distinct(r)
  {
    if |xs| == 0 then []
    else
      assert Distinct(xs) ==> xs[0] !in xs[1..] && Distinct(xs[1..]) by {
        if Distinct(xs) {
          assert forall i :: 1 <= i < |xs| ==> xs[i] == xs[1..][i - 1];
        }
      }
      (if xs[0] == x then [] else [xs[0]]) + Without(xs[1..], x)
  }

  /** Delete `keys` one after the other; deleting a key that is not there
      aborts with that key. */
  function DeleteKeys<V>(properties: map<string, V>, keys: seq<string>): (r: Result<map<string, V>>)
    ensures Distinct(keys) ==> (r.Err? <==> exists i :: 0 <= i < |keys| && keys[i] !in properties)
    ensures Distinct(keys) && r.Err? ==>
      exists i :: 0 <= i < |keys| && keys[i] !in properties
        && (forall j :: 0 <= j < i ==> keys[j] in properties)
        && r.error == MissingComponent(keys[i])
    ensures r.Ok? ==> forall k :: k in r.value <==> k in properties && k !in keys
    ensures r.Ok? ==> forall k :: k in r.value ==> r.value[k] == properties[k]
    decreases |keys|
  {
    if |keys| == 0 then Ok(properties)
    else if keys[0] !in properties then Err(MissingComponent(keys[0]))
    else
      var rest := keys[1..];
      assert forall i :: 1 <= i < |keys| ==> keys[i] == rest[i - 1];
      assert Distinct(keys) ==> Distinct(rest) && forall k :: k in rest ==> k != keys[0];
      DeleteKeys(properties - {keys[0]}, rest)
  }

  /** Deleting a key twice fails the second time. */
  lemma DeleteTwiceFails<V>(properties: map<string, V>, key: string)
    requires key in properties
    ensures DeleteKeys(properties, [key, key]) == Err(MissingComponent(key))
  {
    assert [key, key][1..] == [key];
  }

  /** The `properties` left for a template of `component`, or of the full
      schema when no component is chosen. The command line only accepts a
      known component. The other components are deleted in declaration
      order, so the first of them that is missing is the one reported. */
  function RemoveOtherComponents<V>(properties: map<string, V>, component: Option<string>)
    : (r: Result<map<string, V>>)
    requires component.Some? ==> component.value in Components
    ensures component.None? ==> r == Ok(properties)
    ensures component.Some? ==>
      (r.Err? <==> exists k :: k in Components && k != component.value && k !in properties)
    ensures component.Some? && r.Err? ==>
      var others := OtherComponents(component.value);
      exists i :: 0 <= i < |others| && others[i] !in properties
        && (forall j :: 0 <= j < i ==> others[j] in properties)
        && r.error == MissingComponent(others[i])
    ensures component.Some? && r.Ok? ==>
      && (forall k :: k in r.value <==> k in properties && (k in Components ==> k == component.value))
      && (forall k :: k in r.value ==> r.value[k] == properties[k])
  {
    match component
    case None => Ok(properties)
    case Some(c) =>
      ComponentsDistinct();
      DeleteAllBut(properties, Components, c);
      DeleteKeys(properties, OtherComponents(c))
  }

  /** Deleting every key of `xs` but `x` fails exactly when one of those keys
      is missing, and otherwise keeps the other entries unchanged. */
  lemma DeleteAllBut<V>(properties: map<string, V>, xs: seq<string>, x: string)
    requires Distinct(xs)
    ensures var r := DeleteKeys(properties, Without(xs, x));
      r.Err? <==> exists k :: k in xs && k != x && k !in properties
    ensures var r := DeleteKeys(properties, Without(xs, x));
      r.Ok? ==> forall k :: k in r.value <==> k in properties && (k in xs ==> k == x)
    ensures var r := DeleteKeys(properties, Without(xs, x));
      r.Ok? ==> forall k :: k in r.value ==> r.value[k] == properties[k]
  {
    var others := Without(xs, x);
    if DeleteKeys(properties, others).Err? {
      var i :| 0 <= i < |others| && others[i] !in properties;
      assert others[i] in others;
    }
  }

  /** Removing one element from a duplicate-free sequence leaves the
      elements before it followed by the elements after it. */
  lemma {:induction false} WithoutAt(xs: seq<string>, p: nat)
    requires Distinct(xs) && p < |xs|
    ensures Without(xs, xs[p]) == xs[..p] + xs[p + 1..]
    decreases p
  {
    if p == 0 {
      assert xs[1..] == xs[0 + 1..];
      WithoutAbsent(xs[1..], xs[0]);
    } else {
      var rest := xs[1..];
      assert Distinct(rest) by {
        assert forall i :: 0 <= i < |rest| ==> rest[i] == xs[i + 1];
      }
      assert rest[p - 1] == xs[p];
      assert xs[0] != xs[p];
      WithoutAt(rest, p - 1);
      assert Without(xs, xs[p]) == [xs[0]] + Without(rest, xs[p]);
      assert xs[..p] == [xs[0]] + rest[..p - 1];
      assert xs[p + 1..] == rest[p - 1 + 1..];
    }
  }

  /** Removing an element that does not occur changes nothing. */
  lemma {:induction false} WithoutAbsent(xs: seq<string>, x: string)
    requires x !in xs
    ensures Without(xs, x) == xs
  {
    if |xs| > 0 {
      WithoutAbsent(xs[1..], x);
      assert [xs[0]] + xs[1..] == xs;
    }
  }

  /** The other components keep their declaration order: the ones before
      `component`, then the ones after it. */
  lemma OtherComponentsInOrder(component: string)
    requires component in Components
    ensures var p := FirstIndex(Components, component);
      OtherComponents(component) == Components[..p] + Components[p + 1..]
  {
    ComponentsDistinct();
    WithoutAt(Components, FirstIndex(Components, component));
  }

  lemma ComponentsDistinct()
    ensures Distinct(Components)
  {
  }
}
