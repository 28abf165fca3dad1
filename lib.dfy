/**
 * The `NewRelic` façade: static registries, the current transaction name and
 * guarded forwarding to the New Relic extension. The extension's
 * `newrelic_*` functions are not called; each call they would receive is
 * appended to `log`, and `extension_loaded('newrelic')` is the field
 * `available`, read afresh by every operation.
 */
module Lib {
  import opened Php

  /** The PHP values the façade forwards (floats are not modelled). */
  datatype Value =
    | Null
    | Bool(b: bool)
    | Int(i: int)
    | Str(s: string)
    | Array(entries: seq<(string, Value)>)

  /** PHP `is_scalar`: booleans, integers and strings; not `null`, not arrays. */
  predicate IsScalar(v: Value) {
    v.Bool? || v.Int? || v.Str?
  }

  /** What `get_class` and the extension see of a thrown exception. */
  datatype Throwable = Throwable(className: string, message: string)

  /** One call into the extension, named after the `newrelic_*` function it stands for. */
  datatype SinkCall =
    | StartTransaction                                   // newrelic_start_transaction
    | NameTransaction(name: Option<string>)              // newrelic_name_transaction
    | EndTransaction(ignore: bool)                       // newrelic_end_transaction
    | IgnoreCurrentTransaction                           // newrelic_ignore_transaction
    | IgnoreCurrentApdex                                 // newrelic_ignore_apdex
    | SetCaptureParams(enabled: bool)                    // newrelic_capture_params
    | AddCustomTracer(tracedMethod: string)              // newrelic_add_custom_tracer
    | AddCustomParameter(key: string, value: Value)      // newrelic_add_custom_parameter
    | CustomMetric(key: string, value: Value)            // newrelic_custom_metric
    | NoticeException(exception: Throwable)              // newrelic_notice_error(null, $exception)
    | NoticeError(code: Value, description: Value, file: Value, line: Value, context: Value)
    | SetUserAttributes(user: string, account: string, product: string)

  /** A call that returned, or the exception `metric` throws. */
  datatype Outcome = Pass | Fail(message: string)

  const NotNumericMessage := "Value must be numeric"

  /** The `TypeError` a strict-types `strpos` raises for a haystack that is not a string. */
  const HaystackTypeErrorMessage := "strpos(): Argument #1 ($haystack) must be of type string"

  /**
   * The parameters `collect` forwards from one superglobal, in its iteration
   * order: each entry whose key is on the allow-list, renamed to
   * `keyPrefix` + the lower-cased key.
   */
  function Allowed(entries: seq<(string, Value)>, allowList: seq<string>, keyPrefix: string): (forwarded: seq<(string, Value)>)
    ensures |forwarded| <= |entries|
    decreases |entries|
  {
    if |entries| == 0 then []
    else
      var last := entries[|entries| - 1];
      Allowed(entries[..|entries| - 1], allowList, keyPrefix)
        + (if last.0 in allowList then [(keyPrefix + ToLower(last.0), last.1)] else [])
  }

  /** Filtering keeps iteration order: a superglobal read in two halves gives the two results in turn. */
  lemma {:induction false} AllowedConcat(front: seq<(string, Value)>, back: seq<(string, Value)>, allowList: seq<string>, keyPrefix: string)
    ensures Allowed(front + back, allowList, keyPrefix) == Allowed(front, allowList, keyPrefix) + Allowed(back, allowList, keyPrefix)
    decreases |back|
  {
    if |back| > 0 {
      var whole := front + back;
      assert whole[..|whole| - 1] == front + back[..|back| - 1];
      assert whole[|whole| - 1] == back[|back| - 1];
      AllowedConcat(front, back[..|back| - 1], allowList, keyPrefix);
    } else {
      assert front + back == front;
    }
  }

  /**
   * A forwarded parameter is exactly an allowed entry under its new key:
   * nothing off the allow-list goes out, and nothing on it is dropped.
   */
  lemma {:induction false} AllowedMembership(entries: seq<(string, Value)>, allowList: seq<string>, keyPrefix: string, key: string, value: Value)
    ensures (key, value) in Allowed(entries, allowList, keyPrefix)
        <==> exists i :: 0 <= i < |entries| && entries[i].0 in allowList && key == keyPrefix + ToLower(entries[i].0) && value == entries[i].1
    decreases |entries|
  {
    if |entries| > 0 {
      var init := entries[..|entries| - 1];
      AllowedMembership(init, allowList, keyPrefix, key, value);
      var n := |entries| - 1;
      if (key, value) in Allowed(init, allowList, keyPrefix) {
        var i :| 0 <= i < |init| && init[i].0 in allowList && key == keyPrefix + ToLower(init[i].0) && value == init[i].1;
        assert entries[i] == init[i];
      }
      if exists i :: 0 <= i < |entries| && entries[i].0 in allowList && key == keyPrefix + ToLower(entries[i].0) && value == entries[i].1 {
        var i :| 0 <= i < |entries| && entries[i].0 in allowList && key == keyPrefix + ToLower(entries[i].0) && value == entries[i].1;
        if i < n {
          assert init[i] == entries[i];
        }
      }
    }
  }

  /** `sendError` drops a description in which some ignored string occurs (`strpos` is not false). */
  predicate Suppressed(ignoredErrors: seq<string>, description: string) {
    exists i :: 0 <= i < |ignoredErrors| && StrPos(description, ignoredErrors[i]).Some?
  }

  /** Suppression means some ignored string occurs somewhere in the description. */
  lemma SuppressedMeansOccurs(ignoredErrors: seq<string>, description: string)
    ensures Suppressed(ignoredErrors, description)
        <==> exists i: nat, k: nat :: i < |ignoredErrors| && OccursAt(description, ignoredErrors[i], k)
  {
    if Suppressed(ignoredErrors, description) {
      var i :| 0 <= i < |ignoredErrors| && StrPos(description, ignoredErrors[i]).Some?;
      var k := StrPos(description, ignoredErrors[i]).value;
      assert OccursAt(description, ignoredErrors[i], k);
    }
    if exists i: nat, k: nat :: i < |ignoredErrors| && OccursAt(description, ignoredErrors[i], k) {
      var i: nat, k: nat :| i < |ignoredErrors| && OccursAt(description, ignoredErrors[i], k);
      assert StrPos(description, ignoredErrors[i]).Some?;
    }
  }

  /** More ignored strings suppress exactly what either list suppresses, so registering never un-ignores. */
  lemma SuppressedAppend(ignored: seq<string>, more: seq<string>, description: string)
    ensures Suppressed(ignored + more, description) <==> Suppressed(ignored, description) || Suppressed(more, description)
  {
    var all := ignored + more;
    if Suppressed(ignored, description) {
      var i :| 0 <= i < |ignored| && StrPos(description, ignored[i]).Some?;
      assert all[i] == ignored[i];
    }
    if Suppressed(all, description) {
      var i :| 0 <= i < |all| && StrPos(description, all[i]).Some?;
      if i >= |ignored| {
        assert more[i - |ignored|] == all[i];
      }
    }
    if Suppressed(more, description) {
      var j :| 0 <= j < |more| && StrPos(description, more[j]).Some?;
      assert all[|ignored| + j] == more[j];
    }
  }

  /** An ignored "" occurs in every description, so it silences every error. */
  lemma EmptyIgnoredErrorSilencesAll(ignoredErrors: seq<string>, description: string)
    requires "" in ignoredErrors
    ensures Suppressed(ignoredErrors, description)
  {
    var i :| 0 <= i < |ignoredErrors| && ignoredErrors[i] == "";
    assert OccursAt(description, "", 0);
  }

  /** Bookkeeping for `collect`: five forwardings in a row extend the log by their concatenation. */
  lemma AppendChain<T>(l0: seq<T>, l1: seq<T>, l2: seq<T>, l3: seq<T>, l4: seq<T>, l5: seq<T>, a: T, b: T, c: T, s: seq<T>, k: seq<T>)
    requires l1 == l0 + [a] && l2 == l1 + [b] && l3 == l2 + [c] && l4 == l3 + s && l5 == l4 + k
    ensures l5 == l0 + ([a, b, c] + s + k)
  {
  }

  class NewRelic {
    /** `extension_loaded('newrelic')`, consulted on every call. */
    var available: bool
    var ignoredExceptions: seq<string>
    var ignoredErrors: seq<string>
    var serverVariables: seq<string>
    var cookieVariables: seq<string>
    var currentTransactionName: Option<string>
    /** The calls the extension has received, oldest first. */
    var log: seq<SinkCall>
    /** PHP `is_numeric` on a string, which this model does not re-implement. */
    const isNumericString: string -> bool
    /** PHP `json_encode`, which this model does not re-implement. */
    const jsonEncode: Value -> string

    /** The class's static state as a fresh PHP process has it. */
    constructor (available: bool, isNumericString: string -> bool, jsonEncode: Value -> string)
      ensures this.available == available
      ensures this.isNumericString == isNumericString && this.jsonEncode == jsonEncode
      ensures ignoredExceptions == [] && ignoredErrors == []
      ensures serverVariables == [] && cookieVariables == []
      ensures currentTransactionName == None && log == []
    {
      this.available := available;
      this.isNumericString := isNumericString;
      this.jsonEncode := jsonEncode;
      ignoredExceptions, ignoredErrors := [], [];
      serverVariables, cookieVariables := [], [];
      currentTransactionName := None;
      log := [];
    }

    /** `hasNewRelic`. */
    predicate HasNewRelic()
      reads this
    {
      available
    }

    /** PHP `is_numeric`: integers, and strings PHP reads as numbers. */
    predicate IsNumeric(v: Value) {
      v.Int? || (v.Str? && isNumericString(v.s))
    }

    /** The value `parameter` hands to the extension. */
    function Forwarded(v: Value): (r: Value)
      ensures IsScalar(r)
      ensures IsScalar(v) ==> r == v
      ensures !IsScalar(v) ==> r == Str(jsonEncode(v))
    {
      if IsScalar(v) then v else Str(jsonEncode(v))
    }

    /** The calls `parameter` makes for a list of key/value pairs, one each, in order. */
    function ParameterCalls(parameters: seq<(string, Value)>): (calls: seq<SinkCall>)
      ensures |calls| == |parameters|
      decreases |parameters|
    {
      if |parameters| == 0 then []
      else
        var last := parameters[|parameters| - 1];
        ParameterCalls(parameters[..|parameters| - 1]) + [AddCustomParameter(last.0, Forwarded(last.1))]
    }

    /** The i-th call is `parameter` for the i-th pair, with its value as forwarded. */
    lemma {:induction false} ParameterCallsAt(parameters: seq<(string, Value)>, i: nat)
      requires i < |parameters|
      ensures ParameterCalls(parameters)[i] == AddCustomParameter(parameters[i].0, Forwarded(parameters[i].1))
      decreases |parameters|
    {
      var n := |parameters| - 1;
      if i < n {
        ParameterCallsAt(parameters[..n], i);
      }
    }

    lemma ParameterCallsAppend(parameters: seq<(string, Value)>, p: (string, Value))
      ensures ParameterCalls(parameters + [p]) == ParameterCalls(parameters) + [AddCustomParameter(p.0, Forwarded(p.1))]
    {
      assert (parameters + [p])[..|parameters|] == parameters;
    }

    /** `start`: begins a transaction and names it, keeping the old name when `name` is falsy. */
    method Start(name: Option<string>)
      modifies this`log, this`currentTransactionName
      ensures !available ==> log == old(log) && currentTransactionName == old(currentTransactionName)
      ensures available ==> currentTransactionName == (if TruthyOrNull(name) then name else old(currentTransactionName))
      ensures available ==> log == old(log) + [StartTransaction, NameTransaction(currentTransactionName)]
    {
      if !HasNewRelic() {
        return;
      }
      log := log + [StartTransaction];
      if TruthyOrNull(name) {
        currentTransactionName := name;
      }
      log := log + [NameTransaction(currentTransactionName)];
    }

    /** `stop`. */
    method Stop(ignore: bool)
      modifies this`log
      ensures log == old(log) + (if available then [EndTransaction(ignore)] else [])
    {
      if !HasNewRelic() {
        return;
      }
      log := log + [EndTransaction(ignore)];
    }

    /** `ignoreTransaction`. */
    method IgnoreTransaction()
      modifies this`log
      ensures log == old(log) + (if available then [IgnoreCurrentTransaction] else [])
    {
      if !HasNewRelic() {
        return;
      }
      log := log + [IgnoreCurrentTransaction];
    }

    /** `ignoreApdex`. */
    method IgnoreApdex()
      modifies this`log
      ensures log == old(log) + (if available then [IgnoreCurrentApdex] else [])
    {
      if !HasNewRelic() {
        return;
      }
      log := log + [IgnoreCurrentApdex];
    }

    /** `captureParams`. */
    method CaptureParams(enabled: bool)
      modifies this`log
      ensures log == old(log) + (if available then [SetCaptureParams(enabled)] else [])
    {
      if !HasNewRelic() {
        return;
      }
      log := log + [SetCaptureParams(enabled)];
    }

    /** `addTracer`; `tracer` below does the same. */
    method AddTracer(tracedMethod: string)
      modifies this`log
      ensures log == old(log) + (if available then [AddCustomTracer(tracedMethod)] else [])
    {
      if !HasNewRelic() {
        return;
      }
      log := log + [AddCustomTracer(tracedMethod)];
    }

    /** `tracer`. */
    method Tracer(tracedMethod: string)
      modifies this`log
      ensures log == old(log) + (if available then [AddCustomTracer(tracedMethod)] else [])
    {
      if !HasNewRelic() {
        return;
      }
      log := log + [AddCustomTracer(tracedMethod)];
    }

    /** `parameter`: one custom parameter under `key`, a non-scalar value JSON-encoded. */
    method Parameter(key: string, value: Value)
      modifies this`log
      ensures log == old(log) + (if available then [AddCustomParameter(key, Forwarded(value))] else [])
    {
      if !HasNewRelic() {
        return;
      }
      var forwarded := value;
      if !IsScalar(value) {
        forwarded := Str(jsonEncode(value));
      }
      log := log + [AddCustomParameter(key, forwarded)];
    }

    /**
     * `metric`: without the extension nothing happens, not even the check;
     * a non-numeric value throws and forwards nothing; otherwise one metric.
     */
    method Metric(key: string, value: Value) returns (outcome: Outcome)
      modifies this`log
      ensures !available ==> outcome == Pass && log == old(log)
      ensures available && !IsNumeric(value) ==> outcome == Fail(NotNumericMessage) && log == old(log)
      ensures available && IsNumeric(value) ==> outcome == Pass && log == old(log) + [CustomMetric(key, value)]
    {
      outcome := Pass;
      if !HasNewRelic() {
        return;
      }
      if !IsNumeric(value) {
        outcome := Fail(NotNumericMessage);
        return;
      }
      log := log + [CustomMetric(key, value)];
    }

    /** `ignoreException`: a single class name is passed as a one-element list, as PHP's `(array)` cast makes it. */
    method IgnoreException(exceptions: seq<string>)
      modifies this`ignoredExceptions
      ensures ignoredExceptions == old(ignoredExceptions) + exceptions
    {
      ignoredExceptions := ignoredExceptions + exceptions;
    }

    /** `ignoreError`. */
    method IgnoreError(errors: seq<string>)
      modifies this`ignoredErrors
      ensures ignoredErrors == old(ignoredErrors) + errors
    {
      ignoredErrors := ignoredErrors + errors;
    }

    /** `collectServerVariables`. */
    method CollectServerVariables(variables: seq<string>)
      modifies this`serverVariables
      ensures serverVariables == old(serverVariables) + variables
    {
      serverVariables := serverVariables + variables;
    }

    /** `collectCookieVariables`. */
    method CollectCookieVariables(variables: seq<string>)
      modifies this`cookieVariables
      ensures cookieVariables == old(cookieVariables) + variables
    {
      cookieVariables := cookieVariables + variables;
    }

    /** `sendException`: one notice unless the exception's class is ignored. */
    method SendException(exception: Throwable)
      modifies this`log
      ensures log == old(log) + (if available && exception.className !in ignoredExceptions then [NoticeException(exception)] else [])
    {
      if !HasNewRelic() {
        return;
      }
      if exception.className in ignoredExceptions {
        return;
      }
      log := log + [NoticeException(exception)];
    }

    /**
     * `sendError`: one notice with the arguments as given unless an ignored
     * string occurs in the description. The file declares strict types, so
     * the first `strpos` on a description that is not a string throws a
     * `TypeError`; with no ignored strings there is no `strpos` and any
     * description is forwarded.
     */
    method SendError(code: Value, description: Value, file: Value, line: Value, context: Value) returns (outcome: Outcome)
      modifies this`log
      ensures !available ==> outcome == Pass && log == old(log)
      ensures available && !description.Str? && |ignoredErrors| > 0
          ==> outcome == Fail(HaystackTypeErrorMessage) && log == old(log)
      ensures available && description.Str? && Suppressed(ignoredErrors, description.s)
          ==> outcome == Pass && log == old(log)
      ensures available && (if description.Str? then !Suppressed(ignoredErrors, description.s) else |ignoredErrors| == 0)
          ==> outcome == Pass && log == old(log) + [NoticeError(code, description, file, line, context)]
    {
      outcome := Pass;
      if !HasNewRelic() {
        return;
      }
      var i := 0;
      while i < |ignoredErrors|
        invariant 0 <= i <= |ignoredErrors|
        invariant !description.Str? ==> i == 0
        invariant description.Str? ==> forall j :: 0 <= j < i ==> StrPos(description.s, ignoredErrors[j]).None?
        invariant outcome == Pass && log == old(log)
      {
        if !description.Str? {
          outcome := Fail(HaystackTypeErrorMessage);
          return;
        }
        if StrPos(description.s, ignoredErrors[i]).Some? {
          return;
        }
        i := i + 1;
      }
      log := log + [NoticeError(code, description, file, line, context)];
    }

    /** `user`. */
    method User(user: string, account: string, product: string)
      modifies this`log
      ensures log == old(log) + (if available then [SetUserAttributes(user, account, product)] else [])
    {
      if !HasNewRelic() {
        return;
      }
      log := log + [SetUserAttributes(user, account, product)];
    }

    /**
     * `collect`: the request's GET, POST and FILES arrays as three encoded
     * parameters, then the allowed server and cookie entries in their
     * iteration order. Each forwarding is `parameter`, so without the
     * extension nothing goes out.
     */
    method Collect(get: seq<(string, Value)>, post: seq<(string, Value)>, files: seq<(string, Value)>,
                   server: seq<(string, Value)>, cookie: seq<(string, Value)>)
      modifies this`log
      ensures log == old(log) + (if available then
                [AddCustomParameter("_get", Forwarded(Array(get))),
                 AddCustomParameter("_post", Forwarded(Array(post))),
                 AddCustomParameter("_files", Forwarded(Array(files)))]
                + ParameterCalls(Allowed(server, serverVariables, "server_"))
                + ParameterCalls(Allowed(cookie, cookieVariables, "cookie_"))
                else [])
    {
      Parameter("_get", Array(get));
      ghost var afterGet := log;
      Parameter("_post", Array(post));
      ghost var afterPost := log;
      Parameter("_files", Array(files));
      ghost var afterFiles := log;
      ForwardAllowed(server, serverVariables, "server_");
      ghost var afterServer := log;
      ForwardAllowed(cookie, cookieVariables, "cookie_");
      if available {
        AppendChain(old(log), afterGet, afterPost, afterFiles, afterServer, log,
                    AddCustomParameter("_get", Forwarded(Array(get))),
                    AddCustomParameter("_post", Forwarded(Array(post))),
                    AddCustomParameter("_files", Forwarded(Array(files))),
                    ParameterCalls(Allowed(server, serverVariables, "server_")),
                    ParameterCalls(Allowed(cookie, cookieVariables, "cookie_")));
      }
    }

    /** One `foreach` of `collect`: `parameter` for every allowed entry, under its new key. */
    method ForwardAllowed(entries: seq<(string, Value)>, allowList: seq<string>, keyPrefix: string)
      modifies this`log
      ensures log == old(log) + (if available then ParameterCalls(Allowed(entries, allowList, keyPrefix)) else [])
    {
      var i := 0;
      while i < |entries|
        invariant 0 <= i <= |entries|
        invariant available ==> log == old(log) + ParameterCalls(Allowed(entries[..i], allowList, keyPrefix))
        invariant !available ==> log == old(log)
      {
        var (key, value) := entries[i];
        if key in allowList {
          Parameter(keyPrefix + ToLower(key), value);
        }
        ForwardStep(entries, i, allowList, keyPrefix);
        i := i + 1;
      }
      assert entries[..|entries|] == entries;
    }

    /** One more entry of the `foreach` adds the call for it, if it is allowed, after the earlier ones. */
    lemma ForwardStep(entries: seq<(string, Value)>, i: nat, allowList: seq<string>, keyPrefix: string)
      requires i < |entries|
      ensures ParameterCalls(Allowed(entries[..i + 1], allowList, keyPrefix))
           == ParameterCalls(Allowed(entries[..i], allowList, keyPrefix))
            + (if entries[i].0 in allowList then [AddCustomParameter(keyPrefix + ToLower(entries[i].0), Forwarded(entries[i].1))] else [])
    {
      var done := Allowed(entries[..i], allowList, keyPrefix);
      assert entries[..i + 1][..i] == entries[..i];
      if entries[i].0 in allowList {
        var p := (keyPrefix + ToLower(entries[i].0), entries[i].1);
        assert Allowed(entries[..i + 1], allowList, keyPrefix) == done + [p];
        ParameterCallsAppend(done, p);
      } else {
        assert Allowed(entries[..i + 1], allowList, keyPrefix) == done;
      }
    }
  }
}
