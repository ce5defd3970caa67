/** The two ways a tenant's spec state is seeded give a state the store starts from. */
module SpecSeeds {
  import opened SpecStore
  import opened SpecAccess

  datatype VersionSeed = VersionSeed(generation: int, author: string, createdAt: int, summary: string, body: string)

  function ToVersion(env: Env, v: VersionSeed, current: int, observed: int): Version {
    Version(v.generation, v.author, v.createdAt, env.hash(v.body), SpecStore.Summary.Seeded(v.summary),
            StatusOf(v.generation, current, observed), v.body)
  }

  function ToVersions(env: Env, vs: seq<VersionSeed>, current: int, observed: int): seq<Version> {
    seq(|vs|, i requires 0 <= i < |vs| => ToVersion(env, vs[i], current, observed))
  }

  /** Nine generations, newest first, of which the eighth is observed. */
  lemma AcmeSeedIsOk(env: Env, vs: seq<VersionSeed>)
    requires |vs| == 9 && forall i | 0 <= i < 9 :: vs[i].generation == 9 - i
    ensures SeedOk(env, SeedOf(ToVersions(env, vs, 9, 8), 9, 8))
  {
  }

  /** Every other tenant: one version per generation, newest first, its texts given by the tenant. */
  method GenericVersions(env: Env, generation: nat, observed: int, text: int -> VersionSeed) returns (out: seq<Version>)
    ensures SeedOk(env, SeedOf(out, generation, observed))
    ensures forall i | 0 <= i < |out| :: out[i].body == text(generation - i).body
  {
    out := [];
    var g: int := generation;
    while g >= 1
      invariant 0 <= g <= generation && |out| == generation - g
      invariant forall i | 0 <= i < |out| ::
        out[i] == ToVersion(env, text(generation - i).(generation := generation - i), generation, observed)
    {
      out := out + [ToVersion(env, text(g).(generation := g), generation, observed)];
      g := g - 1;
    }
  }
}
