/**
 * The package-level registration of the scrapers: each scraper file's `init`
 * appends its scraper to the shared list, in file-name order, and each
 * scraper is known by the name of its metric subsystem.
 */
module Registry {
  import opened Collector
  import Workspaces
  import RegistryModules
  import PolicySets
  import Projects
  import Teams

  /** The name a scraper reports, which is its metric subsystem. */
  function NameOf(s: Scraper): string
  {
    match s
    case ScrapeWorkspaces => Workspaces.Name()
    case ScrapeRegistryModules => RegistryModules.Name()
    case ScrapePolicySets => PolicySets.Name()
    case ScrapeProjects => Projects.Name()
    case ScrapeTeams => Teams.Name()
  }

  /** The scrapers in the order the package's `init` functions register them (file-name order). */
  const Registered: seq<Scraper> :=
    [ScrapePolicySets, ScrapeProjects, ScrapeRegistryModules, ScrapeTeams, ScrapeWorkspaces]

  /** The names of a list of scrapers, in order. */
  function Names(ss: seq<Scraper>): (ns: seq<string>)
    ensures |ns| == |ss|
    ensures forall i :: 0 <= i < |ss| ==> ns[i] == NameOf(ss[i])
  {
    seq(|ss|, i requires 0 <= i < |ss| => NameOf(ss[i]))
  }

  /** No two scrapers share a name. */
  lemma NamesUnique(s: Scraper, t: Scraper)
    ensures NameOf(s) == NameOf(t) <==> s == t
  {
  }

  /**
   * Every scraper type is registered exactly once, and the registered names
   * are pairwise distinct.
   */
  lemma RegisteredOnce()
    ensures forall s: Scraper :: s in Registered
    ensures forall i, j :: 0 <= i < j < |Registered| ==> Registered[i] != Registered[j]
    ensures Distinct(Names(Registered))
  {
    forall s: Scraper ensures s in Registered {
      match s
      case ScrapePolicySets => assert Registered[0] == s;
      case ScrapeProjects => assert Registered[1] == s;
      case ScrapeRegistryModules => assert Registered[2] == s;
      case ScrapeTeams => assert Registered[3] == s;
      case ScrapeWorkspaces => assert Registered[4] == s;
    }
    var ns := Names(Registered);
    forall i, j | 0 <= i < j < |ns| ensures ns[i] != ns[j] {
      NamesUnique(Registered[i], Registered[j]);
    }
  }

  /** Package initialization: runs each file's `init` in file-name order. */
  method InitPackage(list: ScraperList)
    modifies list
    ensures list.scrapers == old(list.scrapers) + Registered
  {
    PolicySets.Init(list);
    Projects.Init(list);
    RegistryModules.Init(list);
    Teams.Init(list);
    Workspaces.Init(list);
  }
}
