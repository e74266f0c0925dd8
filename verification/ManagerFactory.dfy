/** The sequential face of manager_factory.go: ManagerFor on the factory's own map, one call at a time. */
module ManagerFactory {
  import opened Wrappers
  import opened Api
  import opened Client
  import opened Sdk
  import opened ManagerCache

  /** The manager is for the account and region of the request, in which there are no slashes. */
  ghost predicate ServedBy(a: Args, rm: ManagerValue) {
    SlashFree(a.id) && SlashFree(a.region) && rm.account == a.id && rm.region == a.region
  }

  /** A CR without metadata that such a manager finishes carries the account and region that were asked for. */
  lemma StatusNamesRequest(a: Args, rm: ManagerValue, n: NetworkValue)
    requires ServedBy(a, rm) && n.metadata.None?
    ensures var d := WithDefaults(n, rm);
      && d.metadata.Some? && d.metadata.value.ownerAccountID == Some(a.id) && d.metadata.value.region == Some(a.region)
      && d.metadata.value.arn == None
  {
    DefaultsFillIn(n, rm, WithDefaults(n, rm));
  }

  class ResourceManagerFactory {
    var rmCache: map<string, ResourceManager>

    constructor ()
      ensures rmCache == map[] && Fits()
    {
      rmCache := map[];
    }

    /** Every cached manager serves a request without slashes in account and region, under its key. */
    ghost predicate Fits()
      reads *
    {
      forall k :: k in rmCache ==> exists a: Args :: Key(a) == k && ServedBy(a, rmCache[k].View())
    }

    /** Returns the cached manager of the key, or a new one for the account and region, which it caches. */
    method ManagerFor(a: Args, cfgPartition: string, sdkapi: NetworkManagerClient) returns (rm: ResourceManager)
      modifies this
      ensures rmCache == old(rmCache)[Key(a) := rm]
      ensures Key(a) in old(rmCache) ==> rmCache == old(rmCache)
      ensures Key(a) !in old(rmCache) ==>
        fresh(rm) && rm.View() == ManagerValue(a.id, a.region, cfgPartition) && rm.sdkapi == sdkapi
      ensures old(Fits()) && SlashFree(a.id) && SlashFree(a.region) ==> Fits() && ServedBy(a, rm.View())
    {
      ghost var managers := rmCache;
      var rmId := a.id + "/" + a.region + "/" + a.roleARN;
      if rmId in rmCache {
        rm := rmCache[rmId];
        assert rmCache == rmCache[rmId := rm];
        if Fits() && SlashFree(a.id) && SlashFree(a.region) {
          ghost var b :| Key(b) == rmId && ServedBy(b, rm.View());
          KeyInjective(a, b);
        }
        return;
      }
      rm := NewResourceManager(a, cfgPartition, sdkapi);
      rmCache := rmCache[rmId := rm];
      assert Key(a) == rmId;
      assert forall k :: k in managers && k != rmId ==> rmCache[k].View() == old(rmCache[k].View());
    }
  }

  method NewResourceManager(a: Args, cfgPartition: string, sdkapi: NetworkManagerClient) returns (rm: ResourceManager)
    ensures fresh(rm) && rm.View() == ManagerValue(a.id, a.region, cfgPartition) && rm.sdkapi == sdkapi
  {
    var account := new StringCell(a.id);
    var region := new StringCell(a.region);
    var partition := new StringCell(cfgPartition);
    rm := new ResourceManager(account, region, partition, sdkapi);
  }
}
