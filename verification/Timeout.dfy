/** CTimeout::timeofNowTime (base/src/Timeout.cpp): the absolute deadline the timed waits use. */
module Timeout {

  datatype Timespec = Timespec(sec: nat, nsec: nat)

  function Nanoseconds(t: Timespec): nat {
    t.sec * 1_000_000_000 + t.nsec
  }

  /** gettimeofday answers (sec, usec) with usec below a million; the deadline has to fit a time_t. The result is the
      clock plus `minisec` milliseconds to the nanosecond, in normal form. The last two statements find nothing to
      carry: the seconds were already carried out of the microseconds. */
  method TimeofNowTime(sec: nat, usec: nat, minisec: nat) returns (spec: Timespec)
    requires usec < 1_000_000 && sec + minisec / 1000 + 1 < 0x8000_0000_0000_0000
    ensures spec.nsec < 1_000_000_000
    ensures Nanoseconds(spec) == sec * 1_000_000_000 + usec * 1000 + minisec * 1_000_000
  {
    var s := sec + minisec / 1000;
    var minitmp := minisec % 1000;
    var us := usec + minitmp * 1000;
    s := s + us / 1_000_000;
    us := us % 1_000_000;
    var ns := us * 1000;
    ghost var before := Timespec(s, ns);
    s := s + ns / 1_000_000_000;
    ns := ns % 1_000_000_000;
    spec := Timespec(s, ns);
    assert spec == before;
  }
}
