/** Downloads that break off. */
module SessionWitnesses {
  import opened Basics
  import opened Paths
  import opened AtomicStore
  import opened Wire
  import opened Network
  import opened Protocol
  import opened Session
  import opened Client
  import opened Lockstep

  /** What is left of one file after an upload over it broke off. */
  function Overwritten(k: Key, data: Bytes): Store {
    var s := Store(map[k := data], map[]);
    Effect(s, Save(k, |data|), SaveFailed)
  }

  lemma OverwrittenStale(k: Key, data: Bytes)
    ensures var s := Overwritten(k, data);
            s.files == map[] && s.Indexed(k) == Some(|data|) && s.Valid()
            && (|data| < ABSENT ==> Sized(s))
  {
  }

  /** A download of it is announced with the old size and gets nothing: the client fails and the
      server is gone. If the old file was empty the client takes that for a success. */
  lemma DownloadBreaksOff(text: Text, fate: Fate, k: Key, data: Bytes, c: Conn)
    requires Talking(c) && c.user == k.user && k.user != [] && |data| < ABSENT && ShortText(text)
    requires Fits(k.user, Download(k.name, true))
    ensures var (s', c', h) := Exchange(text, fate, Overwritten(k, data), c, Download(k.name, true));
            && !c'.serving
            && (if data == [] then h == Heard(Result(true, Some([]))) && c'.connected
                else h == Heard(FAILED) && !c'.connected)
  {
    OverwrittenStale(k, data);
    var s, cmd := Overwritten(k, data), Download(k.name, true);
    LockstepExactly(text, fate, s, c, cmd);
    assert Breaks(s, c.user, cmd);
    BrokenExactly(text, fate, s, c.user, RequestOf(c.user, cmd));
  }
}
