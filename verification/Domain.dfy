/** Identifiers, scan kinds and the scan state machine (`pkg/scan/state.go`) shared by every module. */
module Domain {

  datatype Option<+T> = None | Some(value: T)

  datatype Result<+T> = Ok(value: T) | Err

  /** A user id is a sixteen-byte UUID; the lock key is computed from its bytes. */
  type Byte = b: int | 0 <= b < 256
  type Uuid = s: seq<Byte> | |s| == 16 witness seq(16, _ => 0)

  /** Scan ids are only compared, so they are numbers; zero is `uuid.Nil`. */
  type ScanId = nat
  const NIL_SCAN: ScanId := 0

  /** `Unsupported` is every kind string other than "wallet" and "endpoint". */
  datatype Kind = Wallet | Endpoint | Unsupported

  /** The two request families of the v1 API. */
  datatype Family = WalletScan | TlsScan

  datatype ScanState = Blank | PENDING | RUNNING | SUCCESS | FAILED | TIMEOUT | UNREACHABLE

  predicate IsTerminal(s: ScanState) {
    s.SUCCESS? || s.FAILED? || s.TIMEOUT? || s.UNREACHABLE?
  }

  /** A blank state reads as PENDING. */
  predicate ValidTransition(source: ScanState, target: ScanState) {
    var start := if source.Blank? then PENDING else source;
    match target
    case RUNNING => start.PENDING?
    case SUCCESS | FAILED | TIMEOUT | UNREACHABLE => start.RUNNING? || start.PENDING?
    case _ => false
  }

  /** Terminal are exactly the states with no way out, and from every other state all of them are one step away. A scan
      is started once, from the beginning, and nothing leads back there. */
  lemma TransitionsAreExact(s: ScanState, t: ScanState)
    ensures IsTerminal(s) <==> forall x :: !ValidTransition(s, x)
    ensures IsTerminal(t) ==> (ValidTransition(s, t) <==> !IsTerminal(s))
    ensures ValidTransition(s, t) && !IsTerminal(t) <==> t == RUNNING && (s == Blank || s == PENDING)
  {
    assert !IsTerminal(s) ==> ValidTransition(s, SUCCESS);
  }

  /* ---- Collections ---- */

  predicate Distinct<T(==)>(s: seq<T>) {
    forall i, j :: 0 <= i < j < |s| ==> s[i] != s[j]
  }

  lemma SubsetSize<T>(a: set<T>, b: set<T>)
    requires a <= b
    ensures |a| <= |b|
  {
    assert b == a + (b - a);
  }

  /* ---- State histories ---- */

  /** A state history: every two neighbours are a valid transition. */
  ghost predicate Path(h: seq<ScanState>) {
    forall i :: 0 <= i < |h| - 1 ==> ValidTransition(h[i], h[i + 1])
  }

  /** Only the last state of a history can be terminal, so a history has at most three states. */
  lemma PathsEndAtFirstTerminal(h: seq<ScanState>)
    requires Path(h)
    ensures forall i :: 0 <= i < |h| && IsTerminal(h[i]) ==> i == |h| - 1
    ensures |h| <= 3
  {
    forall i | 0 <= i < |h| - 1
      ensures !IsTerminal(h[i])
    {
      assert ValidTransition(h[i], h[i + 1]);
    }
    forall i | 1 <= i < |h| - 1
      ensures h[i] == RUNNING
    {
      assert ValidTransition(h[i - 1], h[i]);
    }
    assert |h| > 2 ==> ValidTransition(h[1], h[2]);
  }
}
