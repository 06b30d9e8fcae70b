/** The registry whitelist of scanning/domain/primitive/registry.go. */
module Primitive {
  import opened Wrappers

  const RegistryDocker := "docker.io"
  const RegistryQuay := "quay.io"
  const RegistryOepkgs := "hub.oepkgs.net"

  /** A registry name; `String()` gives back the name it was made from. */
  datatype Registry = Registry(name: string) {
    function String(): (s: string)
      ensures s == name
    {
      name
    }
  }

  datatype RegistryError = UnsupportedRegistry

  predicate IsSupported(r: string) {
    r == RegistryDocker || r == RegistryQuay || r == RegistryOepkgs
  }

  /** The validated constructor: only the three whitelisted registries are accepted. */
  function NewRegistry(r: string): (res: Result<Registry, RegistryError>)
    ensures res.Success? <==> r in {RegistryDocker, RegistryQuay, RegistryOepkgs}
    ensures res.Success? ==> res.value.String() == r
    ensures res.Failure? ==> res.error == UnsupportedRegistry
  {
    if !IsSupported(r) then Failure(UnsupportedRegistry) else Success(Registry(r))
  }

  /** The unvalidated constructor, used when reading rows back from storage. */
  function CreateRegistry(r: string): (reg: Registry)
    ensures reg.String() == r
  {
    Registry(r)
  }

  /** No whitelisted registry name contains the path separators used in image references. */
  lemma SupportedHasNoSeparators(r: string)
    requires IsSupported(r)
    ensures '/' !in r && ':' !in r && r != ""
  {
    if r == RegistryDocker {
      assert r == ['d', 'o', 'c', 'k', 'e', 'r', '.', 'i', 'o'];
    } else if r == RegistryQuay {
      assert r == ['q', 'u', 'a', 'y', '.', 'i', 'o'];
    } else {
      assert r == ['h', 'u', 'b', '.', 'o', 'e', 'p', 'k', 'g', 's', '.', 'n', 'e', 't'];
    }
  }
}
