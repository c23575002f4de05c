/** The "host:port" text that carries a parallel group's rendezvous address: written by deploy and
    apply_scale, read back by the scheduler and by _apply_parallelism. */
module Rendezvous {
  import opened Common

  function Digits(n: nat): string {
    (if n >= 10 then Digits(n / 10) else "") + [DigitChar(n % 10)]
  }

  function DigitChar(d: nat): char
    requires d < 10
  {
    '0' + d as char
  }

  predicate IsDigit(c: char) {
    '0' <= c <= '9'
  }

  /** `str.isdigit` on ASCII text. */
  predicate IsDigits(s: string) {
    s != [] && forall c :: c in s ==> IsDigit(c)
  }

  function DigitValue(c: char): nat
    requires IsDigit(c)
  {
    c as int - '0' as int
  }

  function ParseNat(s: string): nat
    requires forall c :: c in s ==> IsDigit(c)
  {
    if s == [] then 0
    else
      var last := s[|s| - 1];
      assert last in s;
      10 * ParseNat(s[..|s| - 1]) + DigitValue(last)
  }

  /** `str.rpartition`: what is before and after the last separator; everything after when there is none. */
  function RPartition(s: string, sep: char): (string, string) {
    if s == [] then ([], [])
    else
      var n := |s| - 1;
      if s[n] == sep then (s[..n], [])
      else if sep !in s then ([], s)
      else
        var (before, after) := RPartition(s[..n], sep);
        (before, after + [s[n]])
  }

  /** The text a group's ranks share. */
  function Encode(host: string, port: nat): string {
    host + ":" + Digits(port)
  }

  datatype Endpoint = Endpoint(masterAddress: string, masterPort: nat, masterPortText: string)

  /** How _apply_parallelism reads it: MASTER_ADDR and MASTER_PORT of every rank. */
  function Decode(rendezvous: string): Endpoint {
    var (host, port) := RPartition(rendezvous, ':');
    Endpoint(host, if IsDigits(port) then ParseNat(port) else 0, port)
  }

  /** How the scheduler reads it when it collects the rendezvous ports in use. */
  function PortOf(rendezvous: Option<string>): Option<nat> {
    if rendezvous.Some? && ':' in rendezvous.value then
      var port := RPartition(rendezvous.value, ':').1;
      if IsDigits(port) then Some(ParseNat(port)) else None
    else None
  }

  lemma {:induction false} DigitsParse(n: nat)
    ensures IsDigits(Digits(n)) && ParseNat(Digits(n)) == n
  {
    var s := Digits(n);
    if n >= 10 {
      DigitsParse(n / 10);
      assert s[..|s| - 1] == Digits(n / 10);
    } else {
      assert s[..|s| - 1] == [];
    }
    assert s[|s| - 1] == DigitChar(n % 10);
  }

  lemma {:induction false} RPartitionAt(before: string, after: string, sep: char)
    requires sep !in after
    ensures RPartition(before + [sep] + after, sep) == (before, after)
  {
    var s := before + [sep] + after;
    if after == [] {
      assert s[..|s| - 1] == before;
    } else {
      var shorter := after[..|after| - 1];
      assert s[..|s| - 1] == before + [sep] + shorter;
      assert s[|before|] == sep;
      RPartitionAt(before, shorter, sep);
      assert after == shorter + [after[|after| - 1]];
    }
  }

  /** Round trip: whatever the head's host looks like (an IPv6 literal included), every rank dials
      exactly the host and port the scheduler chose, and the scheduler sees that port in use. */
  lemma EncodeDecode(host: string, port: nat)
    ensures Decode(Encode(host, port)) == Endpoint(host, port, Digits(port))
    ensures PortOf(Some(Encode(host, port))) == Some(port)
  {
    DigitsParse(port);
    RPartitionAt(host, Digits(port), ':');
    assert Encode(host, port) == host + [':'] + Digits(port);
    assert Encode(host, port)[|host|] == ':';
  }

  /** n without its last i decimal digits. */
  ghost function Shifted(n: nat, i: nat): nat {
    if i == 0 then n else Shifted(n / 10, i - 1)
  }

  /** The text is decimal: counted from the end, its digits are those of the number, and no more than needed. */
  lemma {:induction false} DigitAt(n: nat, i: nat)
    ensures i < |Digits(n)| <==> i == 0 || Shifted(n, i) > 0
    ensures i < |Digits(n)| ==> Digits(n)[|Digits(n)| - 1 - i] as int == '0' as int + Shifted(n, i) % 10
  {
    if i > 0 {
      if n >= 10 {
        DigitAt(n / 10, i - 1);
      } else {
        ShiftedZero(i - 1);
      }
    }
  }

  lemma {:induction false} ShiftedZero(i: nat)
    ensures Shifted(0, i) == 0
  {
    if i > 0 {
      ShiftedZero(i - 1);
    }
  }

  /** A text without a colon is all port: nobody can dial it. */
  lemma DecodePlain(text: string)
    requires ':' !in text
    ensures Decode(text).masterAddress == "" && Decode(text).masterPortText == text && PortOf(Some(text)).None?
  {
    assert text != [] ==> text[|text| - 1] in text;
  }
}
