/**
 * The dependency marker attributes a task class carries, the service
 * descriptors they are turned into and the service collection that receives
 * them. Reflection is replaced by records: a type is its name, the names of
 * the interfaces it implements and its dependency attributes in declaration
 * order; an assembly is its name and its defined types in order.
 */
module DependencyAttributes {

  datatype ServiceLifetime = Singleton | Scoped | Transient

  /** The three marker attributes. */
  datatype Marker = ScopedDependency | SingletonDependency | TransientDependency

  /**
   * The lifetime each marker's constructor hands to the base attribute. All
   * three pass `Transient`, whatever their name says.
   */
  function MarkerLifetime(m: Marker): (l: ServiceLifetime)
    ensures l == Transient
  {
    match m
    case ScopedDependency => Transient
    case SingletonDependency => Transient
    case TransientDependency => Transient
  }

  /** A marker attribute as placed on a type, with the service type it names. */
  datatype DependencyAttribute = DependencyAttribute(marker: Marker, serviceType: string)

  /** One registration: the service type, the implementing type and the lifetime. */
  datatype ServiceDescriptor = ServiceDescriptor(
    serviceType: string,
    implementationType: string,
    lifetime: ServiceLifetime)

  /** A type as reflection shows it. */
  datatype TypeInfo = TypeInfo(name: string, interfaces: seq<string>, attributes: seq<DependencyAttribute>)

  /** A loaded assembly: its name and its defined types, in order. */
  datatype Assembly = Assembly(name: string, definedTypes: seq<TypeInfo>)

  /**
   * The descriptor an attribute builds for the type it is placed on: the
   * attribute's service type, implemented by that type, with the marker's
   * lifetime.
   */
  function BuildServiceDescriptor(a: DependencyAttribute, t: TypeInfo): (d: ServiceDescriptor)
    ensures d.serviceType == a.serviceType && d.implementationType == t.name
    ensures d.lifetime == Transient
  {
    ServiceDescriptor(a.serviceType, t.name, MarkerLifetime(a.marker))
  }

  /** The descriptors of one type: one per dependency attribute, in attribute order. */
  function Descriptors(t: TypeInfo): (r: seq<ServiceDescriptor>)
    ensures |r| == |t.attributes|
    ensures forall k :: 0 <= k < |r| ==> r[k] == BuildServiceDescriptor(t.attributes[k], t)
  {
    seq(|t.attributes|, k requires 0 <= k < |t.attributes| => BuildServiceDescriptor(t.attributes[k], t))
  }

  /** The service collection the registrations are added to: a list of descriptors. */
  class ServiceCollection {
    var descriptors: seq<ServiceDescriptor>

    /** `new ServiceCollection()`: empty. */
    constructor()
      ensures descriptors == []
    {
      descriptors := [];
    }

    /** `Add`: appends one descriptor; nothing is replaced or removed. */
    method Add(d: ServiceDescriptor)
      modifies this
      ensures descriptors == old(descriptors) + [d]
    {
      descriptors := descriptors + [d];
    }
  }

  /**
   * The inner loop of both registrars: every descriptor the type's attributes
   * build is added, in attribute order.
   */
  method AddDescriptors(services: ServiceCollection, t: TypeInfo)
    modifies services
    ensures services.descriptors == old(services.descriptors) + Descriptors(t)
  {
    var built := Descriptors(t);
    for k := 0 to |built|
      invariant services.descriptors == old(services.descriptors) + built[..k]
    {
      services.Add(built[k]);
      assert built[..k + 1] == built[..k] + [built[k]];
    }
    assert built[..|built|] == built;
  }
}
