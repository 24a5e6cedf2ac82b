/**
 * The registrar of the dependency-injection library: only types that
 * implement the configured interface (matched by name, ignoring case) are
 * registered, one descriptor per dependency attribute. The directory loader
 * is replaced by its two answers: the names of the assemblies that reference
 * this one (after the manifest filter) and the assembly loaded for a name.
 */
module DependencyInjectionRegistration {
  import opened Text
  import opened DependencyAttributes
  import AttributesRegistration

  /** `type.GetInterface(name, true) != null`: the type implements an interface of that name. */
  predicate Qualifies(t: TypeInfo, interfaceName: string) {
    exists k :: 0 <= k < |t.interfaces| && CaseInsensitiveEquals(t.interfaces[k], interfaceName)
  }

  /** The descriptors registered for these types: type order, then attribute order. */
  function Registrations(types: seq<TypeInfo>, interfaceName: string): seq<ServiceDescriptor>
  {
    if types == [] then []
    else
      var last := types[|types| - 1];
      Registrations(types[..|types| - 1], interfaceName)
      + (if Qualifies(last, interfaceName) then Descriptors(last) else [])
  }

  /** The qualifying types, in order. */
  function Qualifying(types: seq<TypeInfo>, interfaceName: string): (r: seq<TypeInfo>)
    ensures forall i :: 0 <= i < |r| ==> Qualifies(r[i], interfaceName) && r[i] in types
  {
    if types == [] then []
    else
      var last := types[|types| - 1];
      Qualifying(types[..|types| - 1], interfaceName)
      + (if Qualifies(last, interfaceName) then [last] else [])
  }

  /** The registrar, holding its configuration and its loader's answers. */
  class RegisterDependencyType {
    /** `InjectFromInterfaceName` of the options. */
    const interfaceName: string
    /** The manifest-filtered names of the assemblies that reference this one. */
    const referencing: seq<string>
    /** `Load`: the assembly of a name. */
    const load: string -> Assembly

    constructor(interfaceName: string, referencing: seq<string>, load: string -> Assembly)
      ensures this.interfaceName == interfaceName && this.referencing == referencing && this.load == load
    {
      this.interfaceName := interfaceName;
      this.referencing := referencing;
      this.load := load;
    }

    /** `RegisterAssembly`: appends the descriptors of the qualifying types of the named assembly. */
    method RegisterAssembly(services: ServiceCollection, assemblyName: string)
      modifies services
      ensures services.descriptors
           == old(services.descriptors) + Registrations(load(assemblyName).definedTypes, interfaceName)
    {
      var assembly := load(assemblyName);
      var types := assembly.definedTypes;
      for i := 0 to |types|
        invariant services.descriptors == old(services.descriptors) + Registrations(types[..i], interfaceName)
      {
        assert types[..i + 1][..i] == types[..i];
        var t := types[i];
        if !Qualifies(t, interfaceName) {
          continue;
        }
        AddDescriptors(services, t);
      }
      assert types[..|types|] == types;
    }

    /** `RegisterAllAssemblies`: `RegisterAssembly` for each referencing assembly, in order. */
    method RegisterAllAssemblies(services: ServiceCollection)
      modifies services
      ensures services.descriptors == old(services.descriptors) + AllAssemblies(referencing, load, interfaceName)
    {
      for i := 0 to |referencing|
        invariant services.descriptors
               == old(services.descriptors) + AllAssemblies(referencing[..i], load, interfaceName)
      {
        assert referencing[..i + 1][..i] == referencing[..i];
        RegisterAssembly(services, referencing[i]);
      }
      assert referencing[..|referencing|] == referencing;
    }
  }

  /** The descriptors registered for these assemblies, one assembly after another. */
  function AllAssemblies(names: seq<string>, load: string -> Assembly, interfaceName: string): seq<ServiceDescriptor>
  {
    if names == [] then []
    else
      AllAssemblies(names[..|names| - 1], load, interfaceName)
      + Registrations(load(names[|names| - 1]).definedTypes, interfaceName)
  }

  // =====================================================================
  // Properties

  /**
   * Filtering, then registering everything, is what this registrar does: it
   * registers the qualifying types exactly as the unfiltered registrar would.
   */
  lemma {:induction false} RegistrationsAreFilteredAll(types: seq<TypeInfo>, interfaceName: string)
    ensures Registrations(types, interfaceName)
         == AttributesRegistration.AllRegistrations(Qualifying(types, interfaceName))
  {
    if types != [] {
      var front, last := types[..|types| - 1], types[|types| - 1];
      RegistrationsAreFilteredAll(front, interfaceName);
      var q := Qualifying(front, interfaceName);
      if Qualifies(last, interfaceName) {
        AttributesRegistration.AllRegistrationsAppend(q, [last]);
        assert AttributesRegistration.AllRegistrations([last]) == Descriptors(last) by {
          assert [last][..0] == [];
        }
      } else {
        assert q + [] == q;
      }
    }
  }

  /** One descriptor per dependency attribute of each qualifying type. */
  lemma RegistrationsCount(types: seq<TypeInfo>, interfaceName: string)
    ensures |Registrations(types, interfaceName)|
         == AttributesRegistration.AttributeCount(Qualifying(types, interfaceName))
  {
    RegistrationsAreFilteredAll(types, interfaceName);
    AttributesRegistration.AllRegistrationsCount(Qualifying(types, interfaceName));
  }

  /** Registering two runs of types adds the first run's descriptors, then the second's. */
  lemma {:induction false} RegistrationsAppend(a: seq<TypeInfo>, b: seq<TypeInfo>, interfaceName: string)
    ensures Registrations(a + b, interfaceName) == Registrations(a, interfaceName) + Registrations(b, interfaceName)
    decreases |b|
  {
    if b == [] {
      assert a + b == a;
    } else {
      var front, ab, last := b[..|b| - 1], a + b, b[|b| - 1];
      assert ab[..|ab| - 1] == a + front && ab[|ab| - 1] == last;
      var r := if Qualifies(last, interfaceName) then Descriptors(last) else [];
      assert Registrations(ab, interfaceName) == Registrations(a + front, interfaceName) + r;
      assert Registrations(b, interfaceName) == Registrations(front, interfaceName) + r;
      RegistrationsAppend(a, front, interfaceName);
    }
  }

  /** A type without the interface contributes nothing, wherever it stands. */
  lemma NonQualifyingIgnored(a: seq<TypeInfo>, t: TypeInfo, b: seq<TypeInfo>, interfaceName: string)
    requires !Qualifies(t, interfaceName)
    ensures Registrations(a + [t] + b, interfaceName) == Registrations(a + b, interfaceName)
  {
    RegistrationsAppend(a + [t], b, interfaceName);
    RegistrationsAppend(a, [t], interfaceName);
    RegistrationsAppend(a, b, interfaceName);
    assert Registrations([t], interfaceName) == [] by {
      assert [t][..0] == [];
    }
  }

  /** A qualifying type contributes exactly its descriptors: one per attribute, in order. */
  lemma QualifyingContributes(a: seq<TypeInfo>, t: TypeInfo, b: seq<TypeInfo>, interfaceName: string)
    requires Qualifies(t, interfaceName)
    ensures Registrations(a + [t] + b, interfaceName)
         == Registrations(a, interfaceName) + Descriptors(t) + Registrations(b, interfaceName)
  {
    RegistrationsAppend(a + [t], b, interfaceName);
    RegistrationsAppend(a, [t], interfaceName);
    assert Registrations([t], interfaceName) == Descriptors(t) by {
      assert [t][..0] == [];
    }
  }

  /** The interface name is matched ignoring case. */
  lemma QualifiesIgnoresCase(t: TypeInfo, name: string, other: string)
    requires CaseInsensitiveEquals(name, other)
    ensures Qualifies(t, name) <==> Qualifies(t, other)
  {
  }

  /** Registering a list of assemblies twice registers every descriptor twice: nothing is de-duplicated. */
  lemma {:induction false} AllAssembliesAppend(a: seq<string>, b: seq<string>, load: string -> Assembly,
                                               interfaceName: string)
    ensures AllAssemblies(a + b, load, interfaceName)
         == AllAssemblies(a, load, interfaceName) + AllAssemblies(b, load, interfaceName)
    decreases |b|
  {
    if b == [] {
      assert a + b == a;
    } else {
      var front := b[..|b| - 1];
      var ab, last := a + b, b[|b| - 1];
      assert ab[..|ab| - 1] == a + front && ab[|ab| - 1] == last;
      var r := Registrations(load(last).definedTypes, interfaceName);
      assert AllAssemblies(ab, load, interfaceName) == AllAssemblies(a + front, load, interfaceName) + r;
      assert AllAssemblies(b, load, interfaceName) == AllAssemblies(front, load, interfaceName) + r;
      AllAssembliesAppend(a, front, load, interfaceName);
    }
  }

  /** The same assembly registered twice yields its descriptors twice over. */
  lemma RegisteredTwice(name: string, load: string -> Assembly, interfaceName: string)
    ensures AllAssemblies([name, name], load, interfaceName)
         == Registrations(load(name).definedTypes, interfaceName)
            + Registrations(load(name).definedTypes, interfaceName)
  {
    assert [name][..0] == [];
    assert AllAssemblies([name], load, interfaceName) == Registrations(load(name).definedTypes, interfaceName);
    assert [name, name][..1] == [name];
  }
}
