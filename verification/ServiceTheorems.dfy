/** From the code on the screen to the admitted request: what holds of every run of the whole service. */
module ServiceTheorems {
  import opened Crypto
  import Pairing
  import PairingProofs
  import PairingTheorems
  import Admission
  import AdmissionTheorems
  import opened Service

  ghost predicate Reached(p: Primitives, cfg: Config, s: State, at: int)
  {
    exists from, run :: Runs(p, cfg, Initial, from, run, s, at)
  }

  lemma ReachedInv(p: Primitives, cfg: Config, s: State, at: int)
    requires Pairing.Configured(cfg.pairing) && Reached(p, cfg, s, at)
    ensures Inv(p, cfg, s, at)
  {
    var from, run :| Runs(p, cfg, Initial, from, run, s, at);
    InitialHolds(p, cfg, from);
    RunKeeps(p, cfg, Initial, from, run, s, at);
    hide Inv, Runs;
  }

  // ---- Every admission goes back to a window ----

  /** A stored device that was matched in its window and approved, in the pairing log of some process life. */
  ghost predicate ProperAt(p: Primitives, cfg: Config, s: State, place: Place, d: string)
  {
    StoredAt(Logs(s), place, d) && PairingTheorems.Proper(p, cfg.pairing, Logs(s)[place.era], place.index)
  }

  lemma StoredIsProper(p: Primitives, cfg: Config, s: State, at: int, place: Place, d: string)
    requires Inv(p, cfg, s, at) && StoredAt(Logs(s), place, d)
    ensures ProperAt(p, cfg, s, place, d)
  {
    hide Admission.Inv, Sourced, KeysEnrolled, PairingTheorems.Proper, PairingProofs.Shape, PairingProofs.Waiting,
         PairingProofs.Linked, PairingProofs.Reported, PairingProofs.History;
    assert PairingProofs.History(p, cfg.pairing, Logs(s)[place.era]);
    PairingTheorems.StoredProper(p, cfg.pairing, Logs(s)[place.era], place.index);
  }

  /** The pairing at `since` vouches for the admission at `i`: not revoked or deleted since, and properly enrolled. */
  ghost predicate Vouches(p: Primitives, cfg: Config, s: State, since: nat, i: nat)
  {
    var log := s.admission.log;
    && i < |log| && log[i].Admitted? && since < log[i].lookup < i
    && Admission.TrustedSince(log, log[i].deviceId, since, log[i].lookup)
    && since in s.sources && ProperAt(p, cfg, s, s.sources[since], log[i].deviceId)
  }

  /**
   Every admitted request is of a device that was paired before its lookup, and neither revoked nor
   deleted in between; that pairing is the enrollment of a submission that gave the window's code in
   time, with a proof by its key, and was approved where approval is asked for. Restarts change
   nothing about it.
   */
  lemma AdmittedWasEnrolled(p: Primitives, cfg: Config, s: State, at: int, i: nat)
    requires Pairing.Configured(cfg.pairing) && Reached(p, cfg, s, at)
    requires i < |s.admission.log| && s.admission.log[i].Admitted?
    ensures exists since :: Vouches(p, cfg, s, since, i)
  {
    ReachedInv(p, cfg, s, at);
    var log := s.admission.log;
    var d, lookup := log[i].deviceId, log[i].lookup;
    SourceOf(p, cfg, s, at, i);
    var since :| 0 <= since < lookup && Admission.TrustedSince(log, d, since, lookup) && since in s.sources
                 && StoredAt(Logs(s), s.sources[since], d);
    StoredIsProper(p, cfg, s, at, s.sources[since], d);
    AdmissionsLookBack(p, cfg, s, at, i);
    hide Inv, ProperAt, Admission.TrustedSince, Reached;
    assert Vouches(p, cfg, s, since, i);
  }

  lemma AdmissionsLookBack(p: Primitives, cfg: Config, s: State, at: int, i: nat)
    requires Inv(p, cfg, s, at) && i < |s.admission.log| && s.admission.log[i].Admitted?
    ensures s.admission.log[i].lookup < i
  {
    hide PairingProofs.Inv, Sourced, KeysEnrolled, Admission.NoncesAreHistory, Admission.LiveDistinct,
         Admission.DevicesAreHistory,
         Admission.LookedUpAt;
  }

  lemma SourceOf(p: Primitives, cfg: Config, s: State, at: int, i: nat)
    requires Inv(p, cfg, s, at) && i < |s.admission.log| && s.admission.log[i].Admitted?
    ensures var d, lookup := s.admission.log[i].deviceId, s.admission.log[i].lookup;
            && lookup <= |s.admission.log|
            && exists since ::
                 && 0 <= since < lookup && Admission.TrustedSince(s.admission.log, d, since, lookup)
                 && since in s.sources && StoredAt(Logs(s), s.sources[since], d)
  {
    AdmissionsLookBack(p, cfg, s, at, i);
    hide PairingProofs.Inv, KeysEnrolled, Admission.NoncesAreHistory, Admission.LiveDistinct,
         Admission.DevicesAreHistory,
         Admission.HandlersRemember, Admission.VisitorsAdmitted, PairingProofs.History, Admission.SweepsBefore;
    var log := s.admission.log;
    assert Admission.LookedUpAt(log, log[i].deviceId, log[i].sampled, log[i].lookup);
    var since :| 0 <= since < log[i].lookup && Admission.TrustedSince(log, log[i].deviceId, since, log[i].lookup);
    assert log[since].Paired?;
    assert since in s.sources;
  }

  /** The key that a request is admitted under was itself enrolled that way, and signed that very request. */
  lemma AdmittingKeyEnrolled(p: Primitives, cfg: Config, s: State, at: int, u: Admission.Timed, e: Admission.Entry)
    requires Pairing.Configured(cfg.pairing) && Reached(p, cfg, s, at) && e.Admitted?
    requires Admission.Step(p, cfg.admission, s.admission, u).log == s.admission.log + [e]
    ensures u.action.Complete? && u.action.rid in s.admission.handlers
    ensures var f := s.admission.handlers[u.action.rid].f;
            && AdmissionTheorems.SignedBy(p, cfg.admission, f, e, u.action.body)
            && exists place :: ProperAt(p, cfg, s, place, e.deviceId)
                 && Logs(s)[place.era][place.index].enrollment.pubkey == f.device.pubkey
  {
    ReachedInv(p, cfg, s, at);
    hide Reached, Admission.Step, Admission.NoncesAreHistory, Admission.LiveDistinct, Admission.DevicesAreHistory,
         Admission.AdmissionsSound, Admission.VisitorsAdmitted, Sourced, PairingProofs.Inv, PairingProofs.History,
         ProperAt,
         Admission.Verdict, AdmissionTheorems.SignedBy, Admission.SweepsBefore, Admission.KeysDerived;
    AdmissionTheorems.AdmittingStep(p, cfg.admission, s.admission, u, e);
    var h := s.admission.handlers[u.action.rid];
    AdmissionTheorems.VerdictSigned(p, cfg.admission, s.admission.db, h.f, h.lookup, u.action.body);
    hide Admission.HandlersRemember;
    assert KeyFrom(Logs(s), h.f.device.deviceId, h.f.device.pubkey);
    var place :| StoredAt(Logs(s), place, e.deviceId)
        && Logs(s)[place.era][place.index].enrollment.pubkey == h.f.device.pubkey;
    StoredIsProper(p, cfg, s, at, place, e.deviceId);
  }
}
