/** The binding-property sample: a Property holds an int and notifies its
    bound listeners, in bind order, whenever a set changes the value.
    PropertyBinding binds property2 to twice and property3 to three times
    property1; the listener bodies run in bind order inside setProperty1
    (the second one on a worker thread, waited for). A listener is a token;
    `notified` logs the calls each property made. */
module BindingProperty {
  type Listener = nat

  /** The calls a change to `v` makes: every listener, in bind order. */
  function NotifyAll(listeners: seq<Listener>, v: int): (r: seq<(Listener, int)>)
    ensures |r| == |listeners|
    ensures forall k :: 0 <= k < |r| ==> r[k] == (listeners[k], v)
  {
    if listeners == [] then [] else [(listeners[0], v)] + NotifyAll(listeners[1..], v)
  }

  class Property {
    var value: int
    var listeners: seq<Listener>
    var notified: seq<(Listener, int)>

    constructor (initial: int)
      ensures value == initial && listeners == [] && notified == []
    {
      value, listeners, notified := initial, [], [];
    }

    /** set: an equal value changes nothing and calls nobody; a different
        one is stored and every listener is called with it. */
    method Set(newValue: int)
      modifies this`value, this`notified
      ensures value == newValue
      ensures newValue == old(value) ==> notified == old(notified)
      ensures newValue != old(value) ==> notified == old(notified) + NotifyAll(listeners, newValue)
    {
      if value != newValue {
        value := newValue;
        if |listeners| > 0 {
          notified := notified + NotifyAll(listeners, value);
        }
      }
    }

    /** get */
    function Get(): (v: int)
      reads this
      ensures v == value
    {
      value
    }

    /** bind appends; earlier listeners stay bound. */
    method Bind(l: Listener)
      modifies this`listeners
      ensures listeners == old(listeners) + [l]
    {
      listeners := listeners + [l];
    }
  }

  /** The tokens of the two bindings PropertyBinding makes. */
  const DOUBLE: Listener := 2
  const TRIPLE: Listener := 3

  class PropertyBinding {
    const property1: Property
    const property2: Property
    const property3: Property

    /** The bound properties always agree with property1. */
    ghost predicate Valid()
      reads this, property1, property2, property3
    {
      && property1 != property2 && property1 != property3 && property2 != property3
      && property2.value == 2 * property1.value
      && property3.value == 3 * property1.value
      && property1.listeners == [DOUBLE, TRIPLE]
    }

    /** All three properties start at 0; property1 gets the two bindings. */
    constructor ()
      ensures Valid() && fresh(property1) && fresh(property2) && fresh(property3)
      ensures property1.value == 0 && property2.value == 0 && property3.value == 0
    {
      var p1 := new Property(0);
      var p2 := new Property(0);
      var p3 := new Property(0);
      p1.Bind(DOUBLE);
      p1.Bind(TRIPLE);
      property1, property2, property3 := p1, p2, p3;
    }

    /** setProperty1: when the value changes, each binding sets its property
        to the scaled value before the call returns. */
    method SetProperty1(v: int)
      requires Valid()
      modifies property1`value, property1`notified, property2`value, property2`notified,
               property3`value, property3`notified
      ensures Valid()
      ensures property1.value == v && property2.value == 2 * v && property3.value == 3 * v
      ensures v == old(property1.value) ==>
                property1.notified == old(property1.notified) && property2.notified == old(property2.notified)
                && property3.notified == old(property3.notified)
      ensures v != old(property1.value) ==>
                property1.notified == old(property1.notified) + [(DOUBLE, v), (TRIPLE, v)]
    {
      var changed := property1.value != v;
      property1.Set(v);
      if changed {
        property2.Set(v * 2);
        property3.Set(v * 3);
      }
    }

    function GetProperty1(): (v: int)
      reads this, property1
      ensures v == property1.value
    {
      property1.Get()
    }

    function GetProperty2(): (v: int)
      requires Valid()
      reads this, property1, property2, property3
      ensures v == 2 * GetProperty1()
    {
      property2.Get()
    }

    function GetProperty3(): (v: int)
      requires Valid()
      reads this, property1, property2, property3
      ensures v == 3 * GetProperty1()
    {
      property3.Get()
    }
  }
}
