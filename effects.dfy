/**
 * The countdown of the transient effects: each frame every explosion and
 * every level-up banner loses one frame of life, and the ones that reach
 * zero are spliced out.
 */
module Effects {
  import opened Entities
  import opened Sweeps

  /**
   * After one countdown frame, the explosions left are exactly those whose
   * life was above one, in their old order, each with one frame less and
   * nothing else changed, and each still alive.
   */
  lemma ExplosionsCountdown(s: seq<Explosion>)
    ensures |Sweep(s, TickExplosion, ExplosionAlive)| == |Kept(s, TickExplosion, ExplosionAlive)|
    ensures forall k :: 0 <= k < |Kept(s, TickExplosion, ExplosionAlive)| ==>
              var j := Kept(s, TickExplosion, ExplosionAlive)[k];
              j < |s| &&
              Sweep(s, TickExplosion, ExplosionAlive)[k] == s[j].(life := s[j].life - 1) &&
              Sweep(s, TickExplosion, ExplosionAlive)[k].life > 0
    ensures forall k, l :: 0 <= k < l < |Kept(s, TickExplosion, ExplosionAlive)| ==>
              Kept(s, TickExplosion, ExplosionAlive)[k] < Kept(s, TickExplosion, ExplosionAlive)[l]
    ensures forall j :: 0 <= j < |s| ==>
              (j in Kept(s, TickExplosion, ExplosionAlive) <==> s[j].life > 1)
  {
    SweepKeepsExactly(s, TickExplosion, ExplosionAlive);
  }

  /**
   * The same for banners: the survivors are exactly those whose life was
   * above one, in order, each with one frame less, still alive, and with
   * its fade alpha recomputed as its new life over 60.
   */
  lemma BannersCountdown(s: seq<Banner>)
    ensures |Sweep(s, TickBanner, BannerAlive)| == |Kept(s, TickBanner, BannerAlive)|
    ensures forall k :: 0 <= k < |Kept(s, TickBanner, BannerAlive)| ==>
              var j := Kept(s, TickBanner, BannerAlive)[k];
              j < |s| &&
              Sweep(s, TickBanner, BannerAlive)[k].life == s[j].life - 1 > 0 &&
              Sweep(s, TickBanner, BannerAlive)[k].alpha == (s[j].life - 1) as real / 60.0 &&
              Sweep(s, TickBanner, BannerAlive)[k].level == s[j].level &&
              Sweep(s, TickBanner, BannerAlive)[k].x == s[j].x &&
              Sweep(s, TickBanner, BannerAlive)[k].y == s[j].y
    ensures forall k, l :: 0 <= k < l < |Kept(s, TickBanner, BannerAlive)| ==>
              Kept(s, TickBanner, BannerAlive)[k] < Kept(s, TickBanner, BannerAlive)[l]
    ensures forall j :: 0 <= j < |s| ==>
              (j in Kept(s, TickBanner, BannerAlive) <==> s[j].life > 1)
  {
    SweepKeepsExactly(s, TickBanner, BannerAlive);
  }
}
