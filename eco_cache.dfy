/** The ecosyste.ms lookup cache (lib/ecosystems/cache.go): package and
    package-version responses kept in two maps keyed by the purl's string
    form. The fetches are oracles from a purl to a decoded response or an
    error; the lock is left out (calls are sequential here). */
module EcoCache {
  import opened Base
  import opened Purl
  import opened EcoTypes

  /** A fetch that depends on the purl only through its string form, as a
      lookup keyed by that string assumes. */
  ghost predicate KeyDetermines<T>(codec: Codec, fetch: PackageURL -> Result<T>) {
    forall p, q :: Key(codec, p) == Key(codec, q) ==> fetch(p) == fetch(q)
  }

  /** Every cached response is what the fetch answers for every purl with
      that key. */
  ghost predicate Faithful<T>(cache: map<string, T>, codec: Codec, fetch: PackageURL -> Result<T>) {
    forall p :: Key(codec, p) in cache ==> fetch(p) == Ok(cache[Key(codec, p)])
  }

  class InMemoryCache {
    var packageCache: map<string, Response<EcoPackage>>
    var packageVersionCache: map<string, Response<EcoVersion>>

    /** NewInMemoryCache */
    constructor()
      ensures packageCache == map[] && packageVersionCache == map[]
    {
      packageCache := map[];
      packageVersionCache := map[];
    }

    /** GetPackageData: the cached response for the purl's key, or else the
        fetched one, stored when the fetch did not fail (whatever its HTTP
        status). `fetched` says whether the fetch was made. */
    method GetPackageData(codec: Codec, fetch: PackageURL -> Result<Response<EcoPackage>>, p: PackageURL)
      returns (r: Result<Response<EcoPackage>>, fetched: bool)
      modifies this
      ensures var key := Key(codec, p);
        if key in old(packageCache) then
          r == Ok(old(packageCache)[key]) && !fetched && packageCache == old(packageCache)
        else
          fetched && r == fetch(p)
          && packageCache == if r.Ok? then old(packageCache)[key := r.value] else old(packageCache)
      ensures packageVersionCache == old(packageVersionCache)
      ensures Faithful(old(packageCache), codec, fetch) && KeyDetermines(codec, fetch) ==>
        r == fetch(p) && Faithful(packageCache, codec, fetch)
    {
      var key := Key(codec, p);
      if key in packageCache {
        return Ok(packageCache[key]), false;
      }
      r := fetch(p);
      fetched := true;
      if r.Err? {
        return;
      }
      packageCache := packageCache[key := r.value];
    }

    /** GetPackageVersionData: as GetPackageData, over the version cache. */
    method GetPackageVersionData(codec: Codec, fetch: PackageURL -> Result<Response<EcoVersion>>, p: PackageURL)
      returns (r: Result<Response<EcoVersion>>, fetched: bool)
      modifies this
      ensures var key := Key(codec, p);
        if key in old(packageVersionCache) then
          r == Ok(old(packageVersionCache)[key]) && !fetched && packageVersionCache == old(packageVersionCache)
        else
          fetched && r == fetch(p)
          && packageVersionCache == if r.Ok? then old(packageVersionCache)[key := r.value] else old(packageVersionCache)
      ensures packageCache == old(packageCache)
      ensures Faithful(old(packageVersionCache), codec, fetch) && KeyDetermines(codec, fetch) ==>
        r == fetch(p) && Faithful(packageVersionCache, codec, fetch)
    {
      var key := Key(codec, p);
      if key in packageVersionCache {
        return Ok(packageVersionCache[key]), false;
      }
      r := fetch(p);
      fetched := true;
      if r.Err? {
        return;
      }
      packageVersionCache := packageVersionCache[key := r.value];
    }

    /** GetCacheStats: the number of cached packages and package versions. */
    method GetCacheStats() returns (packages: nat, versions: nat)
      ensures packages == |packageCache| && versions == |packageVersionCache|
    {
      packages := |packageCache|;
      versions := |packageVersionCache|;
    }
  }

  /** Two lookups of the same purl: after a successful first one the second
      makes no fetch and returns the identical response. */
  method GetPackageTwice(cache: InMemoryCache, codec: Codec, fetch: PackageURL -> Result<Response<EcoPackage>>, p: PackageURL)
    returns (first: Result<Response<EcoPackage>>, second: Result<Response<EcoPackage>>, secondFetched: bool)
    modifies cache
    ensures first.Ok? ==> second == first && !secondFetched
  {
    var f1;
    first, f1 := cache.GetPackageData(codec, fetch, p);
    second, secondFetched := cache.GetPackageData(codec, fetch, p);
  }

  /** A package lookup never fills the version cache and a version lookup
      never fills the package cache: starting empty, one package lookup
      leaves the statistics at (0 or 1, 0). */
  method StatsAfterOnePackageLookup(codec: Codec, fetch: PackageURL -> Result<Response<EcoPackage>>, p: PackageURL)
    returns (packages: nat, versions: nat)
    ensures versions == 0
    ensures packages == if fetch(p).Ok? then 1 else 0
  {
    var cache := new InMemoryCache();
    var r, fetched := cache.GetPackageData(codec, fetch, p);
    packages, versions := cache.GetCacheStats();
  }

  /** Different keys get distinct entries: two successful lookups of purls
      with different keys, starting empty, leave two cached packages. */
  method StatsAfterTwoPackageLookups(codec: Codec, fetch: PackageURL -> Result<Response<EcoPackage>>, p: PackageURL, q: PackageURL)
    returns (packages: nat, versions: nat)
    requires Key(codec, p) != Key(codec, q)
    ensures versions == 0
    ensures fetch(p).Ok? && fetch(q).Ok? ==> packages == 2
  {
    var cache := new InMemoryCache();
    var r1, f1 := cache.GetPackageData(codec, fetch, p);
    var r2, f2 := cache.GetPackageData(codec, fetch, q);
    packages, versions := cache.GetCacheStats();
  }
}
