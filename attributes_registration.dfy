/**
 * The registrar of the attributes library: every type of the assembly is
 * registered, one descriptor per dependency attribute, with no interface
 * filter. Loading the assembly from its directory is not modelled; the loaded
 * assembly is given.
 */
module AttributesRegistration {
  import opened DependencyAttributes

  /** The descriptors the registrar adds for these types: type order, then attribute order. */
  function AllRegistrations(types: seq<TypeInfo>): seq<ServiceDescriptor>
  {
    if types == [] then []
    else AllRegistrations(types[..|types| - 1]) + Descriptors(types[|types| - 1])
  }

  /** The number of dependency attributes on these types. */
  function AttributeCount(types: seq<TypeInfo>): nat
  {
    if types == [] then 0
    else AttributeCount(types[..|types| - 1]) + |types[|types| - 1].attributes|
  }

  /** `RegisterAssembly`: appends the descriptors of every defined type. */
  method RegisterAssembly(services: ServiceCollection, assembly: Assembly)
    modifies services
    ensures services.descriptors == old(services.descriptors) + AllRegistrations(assembly.definedTypes)
  {
    var types := assembly.definedTypes;
    for i := 0 to |types|
      invariant services.descriptors == old(services.descriptors) + AllRegistrations(types[..i])
    {
      AddDescriptors(services, types[i]);
      assert types[..i + 1][..i] == types[..i];
    }
    assert types[..|types|] == types;
  }

  // =====================================================================
  // Properties

  /** Registering two runs of types adds the first run's descriptors, then the second's. */
  lemma {:induction false} AllRegistrationsAppend(a: seq<TypeInfo>, b: seq<TypeInfo>)
    ensures AllRegistrations(a + b) == AllRegistrations(a) + AllRegistrations(b)
    decreases |b|
  {
    if b == [] {
      assert a + b == a;
    } else {
      var front, ab, last := b[..|b| - 1], a + b, b[|b| - 1];
      assert ab[..|ab| - 1] == a + front && ab[|ab| - 1] == last;
      assert AllRegistrations(ab) == AllRegistrations(a + front) + Descriptors(last);
      assert AllRegistrations(b) == AllRegistrations(front) + Descriptors(last);
      AllRegistrationsAppend(a, front);
    }
  }

  /** Exactly one descriptor per dependency attribute: no more, no fewer. */
  lemma {:induction false} AllRegistrationsCount(types: seq<TypeInfo>)
    ensures |AllRegistrations(types)| == AttributeCount(types)
  {
    if types != [] {
      AllRegistrationsCount(types[..|types| - 1]);
    }
  }

  /**
   * A descriptor is registered exactly when some attribute of some type
   * builds it.
   */
  lemma {:induction false} AllRegistrationsMembers(types: seq<TypeInfo>, d: ServiceDescriptor)
    ensures d in AllRegistrations(types)
        <==> exists i, k :: 0 <= i < |types| && 0 <= k < |types[i].attributes|
                            && d == BuildServiceDescriptor(types[i].attributes[k], types[i])
  {
    if types != [] {
      var front, last := types[..|types| - 1], types[|types| - 1];
      AllRegistrationsMembers(front, d);
      if d in Descriptors(last) {
        var k :| 0 <= k < |Descriptors(last)| && Descriptors(last)[k] == d;
        assert types[|types| - 1] == last;
      }
      if exists i, k :: 0 <= i < |types| && 0 <= k < |types[i].attributes|
                        && d == BuildServiceDescriptor(types[i].attributes[k], types[i]) {
        var i, k :| 0 <= i < |types| && 0 <= k < |types[i].attributes|
                    && d == BuildServiceDescriptor(types[i].attributes[k], types[i]);
        if i < |types| - 1 {
          assert types[i] == front[i];
        } else {
          assert Descriptors(last)[k] == d;
        }
      }
    }
  }

  /** Every registered descriptor has the transient lifetime. */
  lemma AllRegistrationsTransient(types: seq<TypeInfo>, d: ServiceDescriptor)
    requires d in AllRegistrations(types)
    ensures d.lifetime == Transient
  {
    AllRegistrationsMembers(types, d);
  }
}
