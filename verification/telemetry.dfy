/**
  The numbers derived from one status poll before a frame is drawn:
  the progress percentage, the bytes still wanted and the ETA in seconds.
  The same lines appear in both builds.
*/
module Telemetry {
  import Humanize

  /** The fields of the engine's status snapshot the dashboard reads. */
  datatype Status = Status(
    progressPpm: int,
    downloadRate: real,
    uploadRate: real,
    totalDone: int,
    totalWanted: int,
    numPeers: int,
    name: string)

  /** `st.progress_ppm / 10000.0`: parts per million as a percentage. */
  function ProgressPercent(ppm: int): (p: real)
    ensures p * 10000.0 == ppm as real
    ensures 0 <= ppm <= 1000000 ==> 0.0 <= p <= 100.0
  {
    ppm as real / 10000.0
  }

  /** Bytes still wanted: the shortfall of done against wanted, never negative. */
  function Remaining(done: int, wanted: int): (r: nat)
    ensures r >= wanted - done
    ensures r == 0 || r == wanted - done
    ensures r > 0 <==> wanted > done
  {
    if wanted > done then wanted - done else 0
  }

  /**
    Seconds left at the current download rate, or -1 when there is no
    positive rate or nothing left to fetch.
  */
  function EtaSeconds(remaining: nat, rate: real): (d: Humanize.Double)
    ensures d.Finite?
    ensures d.value > 0.0 <==> rate > 0.0 && remaining > 0
    ensures d.value > 0.0 ==> d.value * rate == remaining as real
    ensures d.value <= 0.0 ==> d.value == -1.0
  {
    if rate > 0.0 && remaining > 0 then
      var t := remaining as real / rate;
      assert t * rate == remaining as real;
      assert t <= 0.0 ==> t * rate <= 0.0;
      Humanize.Finite(t)
    else
      Humanize.Finite(-1.0)
  }

  /** The ETA of a status snapshot. */
  function StatusEta(st: Status): (d: Humanize.Double)
    ensures d.Finite?
  {
    EtaSeconds(Remaining(st.totalDone, st.totalWanted), st.downloadRate)
  }

  /**
    The dashboard shows the ETA placeholder exactly when the download rate is
    not positive or nothing is left to fetch.
  */
  lemma EtaPlaceholderIff(st: Status)
    ensures Humanize.FormatEta(StatusEta(st)) == Humanize.EtaPlaceholder
        <==> !(st.downloadRate > 0.0 && st.totalWanted > st.totalDone)
  {
  }

  /**
    With a positive rate and bytes left, the ETA shown rounds the exact
    remaining time `remaining / rate` to the nearest second.
  */
  lemma EtaShowsRemainingTime(st: Status)
    requires st.downloadRate > 0.0 && st.totalWanted > st.totalDone
    ensures
      var c := Humanize.EtaClock(StatusEta(st)).value;
      var shown := (c.hours * 3600 + c.minutes * 60 + c.seconds) as real;
      var exact := StatusEta(st).value;
      && exact * st.downloadRate == (st.totalWanted - st.totalDone) as real
      && shown - 0.5 <= exact < shown + 0.5
  {
  }
}
