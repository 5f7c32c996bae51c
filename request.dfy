/** `requestCMX` (cmx-anonymiser.py:90-124): the bounded retry loop around one
    authenticated GET. The transport is replaced by the sequence of what each
    attempt would do; the loop's state is the attempt counter, the `no_data` flag,
    the `isError` entry of the response dictionary, the last response and the
    number of `time.sleep` calls. */
module Request {

  import opened Base
  import opened Json

  /** The exceptions of the requests library that the loop catches. ConnectTimeout
      derives from ConnectionError and is caught by the first handler; every handler
      logs, sets `isError` to True and sleeps, so they differ only in the log line. */
  datatype RequestError = ConnectionError | HTTPError | ConnectTimeout | OtherRequestException

  /** A received response: its status code and its body as `response.json()` decodes
      it (None when the body is not valid JSON). */
  datatype Response = Response(status: int, body: Option<Json>)

  /** What one call of `requests.get` does. */
  datatype Attempt = Raised(error: RequestError) | Answered(response: Response)

  /** What requestCMX hands back. `isError` is None while the loop never wrote the
      key; `response` is None while it is still the `requests.Session()` placeholder;
      `sleeps` counts the `time.sleep(sleep_between_retries)` calls. */
  datatype FetchResult = FetchResult(attempts: nat, isError: Option<bool>, response: Option<Response>, sleeps: nat)

  predicate IsOk(a: Attempt)
  {
    a.Answered? && a.response.status == 200
  }

  /** How many attempts `number_retries <= max_retries` admits, counting from 1. */
  function Budget(maxRetries: int): nat
  {
    if maxRetries < 0 then 0 else maxRetries
  }

  /** The position of the first 200 answer, or |outcomes| when there is none. */
  function FirstOk(outcomes: seq<Attempt>): (k: nat)
    ensures k <= |outcomes|
    ensures forall i :: 0 <= i < k ==> !IsOk(outcomes[i])
    ensures k < |outcomes| ==> IsOk(outcomes[k])
  {
    if outcomes == [] then 0
    else if IsOk(outcomes[0]) then 0
    else 1 + FirstOk(outcomes[1..])
  }

  /** The number of attempts the loop makes: it stops after the first 200 answer or
      when the budget is spent, whichever comes first. */
  function AttemptsUsed(outcomes: seq<Attempt>, maxRetries: int): (n: nat)
    requires maxRetries <= |outcomes|
    ensures n <= Budget(maxRetries)
    ensures forall i :: 0 <= i < n - 1 ==> !IsOk(outcomes[i])
    ensures n < Budget(maxRetries) ==> 0 < n && IsOk(outcomes[n - 1])
  {
    var k := FirstOk(outcomes);
    if k < Budget(maxRetries) then k + 1 else Budget(maxRetries)
  }

  /** What one attempt writes into `response_dict['isError']`, if anything. */
  function Written(a: Attempt): Option<bool>
  {
    match a
    case Raised(_) => Some(true)
    case Answered(resp) => if resp.status == 200 then Some(false) else None
  }

  /** The value `isError` holds after the given attempts: the last write wins. */
  function LastWrite(tried: seq<Attempt>): Option<bool>
  {
    if tried == [] then None
    else match Written(tried[|tried| - 1])
      case Some(b) => Some(b)
      case None => LastWrite(tried[..|tried| - 1])
  }

  /** The value of `response` after the given attempts: the last response received. */
  function LastResponse(tried: seq<Attempt>): Option<Response>
  {
    if tried == [] then None
    else match tried[|tried| - 1]
      case Answered(resp) => Some(resp)
      case Raised(_) => LastResponse(tried[..|tried| - 1])
  }

  /** How many of the given attempts raised, i.e. how many times the loop slept. */
  function CountRaised(tried: seq<Attempt>): (c: nat)
    ensures c <= |tried|
  {
    if tried == [] then 0
    else CountRaised(tried[..|tried| - 1]) + (if tried[|tried| - 1].Raised? then 1 else 0)
  }

  /** The outcome of requestCMX, defined from the attempts it makes. */
  function Fetch(outcomes: seq<Attempt>, maxRetries: int): FetchResult
    requires maxRetries <= |outcomes|
  {
    var n := AttemptsUsed(outcomes, maxRetries);
    var tried := outcomes[..n];
    FetchResult(n, LastWrite(tried), LastResponse(tried), CountRaised(tried))
  }

  /** The loop itself. */
  method RequestCMX(outcomes: seq<Attempt>, maxRetries: int) returns (r: FetchResult)
    requires maxRetries <= |outcomes|
    ensures r == Fetch(outcomes, maxRetries)
  {
    var noData := true;
    var numberRetries := 1;
    var isError: Option<bool> := None;
    var response: Option<Response> := None;
    var sleeps := 0;
    while noData && numberRetries <= maxRetries
      invariant 1 <= numberRetries <= Budget(maxRetries) + 1
      invariant noData ==> forall i :: 0 <= i < numberRetries - 1 ==> !IsOk(outcomes[i])
      invariant !noData ==> 1 < numberRetries && IsOk(outcomes[numberRetries - 2])
                            && forall i :: 0 <= i < numberRetries - 2 ==> !IsOk(outcomes[i])
      invariant isError == LastWrite(outcomes[..numberRetries - 1])
      invariant response == LastResponse(outcomes[..numberRetries - 1])
      invariant sleeps == CountRaised(outcomes[..numberRetries - 1])
    {
      var done := outcomes[..numberRetries - 1];
      match outcomes[numberRetries - 1] {
        case Answered(resp) =>
          response := Some(resp);
          if resp.status == 200 {
            noData := false;
            isError := Some(false);
          }
        case Raised(_) =>
          isError := Some(true);
          sleeps := sleeps + 1;
      }
      numberRetries := numberRetries + 1;
      assert outcomes[..numberRetries - 1] == done + [outcomes[numberRetries - 2]];
    }
    var n := AttemptsUsed(outcomes, maxRetries);
    assert n == numberRetries - 1;
    r := FetchResult(numberRetries - 1, isError, response, sleeps);
  }

  /** When no attempt before the last one got a 200 answer, the flag is False exactly
      when the last attempt got one, True exactly when otherwise some attempt raised,
      and never written exactly when every attempt got a non-200 answer. */
  lemma {:induction false} LastWriteCases(tried: seq<Attempt>)
    requires forall i :: 0 <= i < |tried| - 1 ==> !IsOk(tried[i])
    ensures LastWrite(tried) == Some(false) <==> |tried| > 0 && IsOk(tried[|tried| - 1])
    ensures LastWrite(tried) == Some(true) <==>
              !(|tried| > 0 && IsOk(tried[|tried| - 1])) && exists i :: 0 <= i < |tried| && tried[i].Raised?
    ensures LastWrite(tried) == None <==>
              forall i :: 0 <= i < |tried| ==> tried[i].Answered? && tried[i].response.status != 200
  {
    if tried != [] {
      var front := tried[..|tried| - 1];
      assert forall i :: 0 <= i < |front| ==> front[i] == tried[i];
      LastWriteCases(front);
      if tried[|tried| - 1].Raised? {
        assert LastWrite(tried) == Some(true);
      }
    }
  }

  /** The `isError` flag requestCMX leaves, described by the attempts the budget
      admits: False iff one of them gets a 200 answer; True iff none does and one of
      them raises; never written iff all of them get non-200 answers (so that a
      server answering only 404 looks like success to the callers). */
  lemma FetchErrorFlag(outcomes: seq<Attempt>, maxRetries: int)
    requires maxRetries <= |outcomes|
    ensures Fetch(outcomes, maxRetries).isError == Some(false) <==>
              exists i :: 0 <= i < Budget(maxRetries) && IsOk(outcomes[i])
    ensures Fetch(outcomes, maxRetries).isError == Some(true) <==>
              (forall i :: 0 <= i < Budget(maxRetries) ==> !IsOk(outcomes[i]))
              && exists i :: 0 <= i < Budget(maxRetries) && outcomes[i].Raised?
    ensures Fetch(outcomes, maxRetries).isError == None <==>
              forall i :: 0 <= i < Budget(maxRetries) ==>
                outcomes[i].Answered? && outcomes[i].response.status != 200
  {
    var n := AttemptsUsed(outcomes, maxRetries);
    var tried := outcomes[..n];
    LastWriteCases(tried);
    var k := FirstOk(outcomes);
    if k < Budget(maxRetries) {
      assert IsOk(tried[n - 1]);
    } else {
      assert n == Budget(maxRetries);
      assert forall i :: 0 <= i < n ==> tried[i] == outcomes[i];
    }
  }

  /** `response` is still the placeholder exactly when every attempt raised (or none
      was made); otherwise it is the latest answer received, after which every
      attempt raised. */
  lemma {:induction false} LastResponseCases(tried: seq<Attempt>)
    ensures LastResponse(tried) == None <==> forall i :: 0 <= i < |tried| ==> tried[i].Raised?
    ensures |tried| > 0 && tried[|tried| - 1].Answered? ==>
              LastResponse(tried) == Some(tried[|tried| - 1].response)
    ensures LastResponse(tried).Some? ==>
              exists i :: 0 <= i < |tried| && tried[i] == Answered(LastResponse(tried).value)
                          && forall j :: i < j < |tried| ==> tried[j].Raised?
  {
    if tried != [] {
      var front := tried[..|tried| - 1];
      assert forall i :: 0 <= i < |front| ==> front[i] == tried[i];
      LastResponseCases(front);
    }
  }

  /** A run that ends in a 200 answer returns that answer and the flag False; a run
      without any received answer leaves the placeholder and, unless no attempt was
      made, the flag True. */
  lemma FetchResponse(outcomes: seq<Attempt>, maxRetries: int)
    requires maxRetries <= |outcomes|
    ensures var f := Fetch(outcomes, maxRetries);
            f.isError == Some(false) ==> f.response.Some? && f.response.value.status == 200
    ensures var f := Fetch(outcomes, maxRetries);
            f.response == None <==> forall i :: 0 <= i < f.attempts ==> outcomes[i].Raised?
    ensures var f := Fetch(outcomes, maxRetries);
            f.response == None && f.attempts > 0 ==> f.isError == Some(true)
    ensures Budget(maxRetries) == 0 ==> Fetch(outcomes, maxRetries) == FetchResult(0, None, None, 0)
  {
    var n := AttemptsUsed(outcomes, maxRetries);
    var tried := outcomes[..n];
    LastResponseCases(tried);
    LastWriteCases(tried);
    assert forall i :: 0 <= i < n ==> tried[i] == outcomes[i];
  }

  /** Every caught exception costs one sleep, and there is no sleep otherwise. */
  lemma {:induction false} CountRaisedCounts(tried: seq<Attempt>)
    ensures CountRaised(tried) == |tried| <==> forall i :: 0 <= i < |tried| ==> tried[i].Raised?
    ensures CountRaised(tried) == 0 <==> forall i :: 0 <= i < |tried| ==> tried[i].Answered?
  {
    if tried != [] {
      var front := tried[..|tried| - 1];
      assert forall i :: 0 <= i < |front| ==> front[i] == tried[i];
      CountRaisedCounts(front);
    }
  }

  /** Three attempts allowed, two connection failures and then a 200: three calls,
      two sleeps, no error. */
  lemma RecoversOnThirdAttempt(resp: Response)
    requires resp.status == 200
    ensures Fetch([Raised(ConnectionError), Raised(ConnectTimeout), Answered(resp)], 3)
            == FetchResult(3, Some(false), Some(resp), 2)
  {
    var o := [Raised(ConnectionError), Raised(ConnectTimeout), Answered(resp)];
    var o1, o2 := [Raised(ConnectTimeout), Answered(resp)], [Answered(resp)];
    assert o[1..] == o1 && o1[1..] == o2;
    assert FirstOk(o2) == 0;
    assert FirstOk(o) == 2;
    assert o[..3] == o;
    assert o[..3][..2] == [Raised(ConnectionError), Raised(ConnectTimeout)];
    assert o[..3][..2][..1] == [Raised(ConnectionError)];
    assert o[..3][..2][..1][..0] == [];
    assert AttemptsUsed(o, 3) == 3;
    assert CountRaised(o[..3][..2]) == 2;
    assert LastWrite(o[..3]) == Some(false);
  }
}
