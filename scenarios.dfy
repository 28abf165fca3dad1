/**
 * Clients of the two classes, using nothing but their contracts: the way the
 * controller component names and starts a transaction, the way the error
 * middleware reports an exception, and the extension being absent.
 */
module Scenarios {
  import opened Php
  import opened Naming
  import opened Lib
  import opened Traits

  /** `beforeFilter`: name the transaction from the request, then start it without an explicit name. */
  method NameThenStart(newRelic: NewRelic)
    requires newRelic.available && newRelic.log == []
    modifies newRelic`log, newRelic`currentTransactionName
  {
    var component := new NewRelicTrait();
    var request := Request("", "0", "Orders", "view", "");
    component.SetName(Some(request));
    RequestNameBare(request);
    assert NameFor(Some(request)) == DeriveNameFromRequest(request) == "Orders" + "/" + "view";
    assert "Orders" + "/" + "view" == "Orders/view";
    assert component.GetName() == Some("Orders/view");
    component.Start(None, newRelic);
    assert newRelic.currentTransactionName == Some("Orders/view");
    assert newRelic.log == [StartTransaction, NameTransaction(Some("Orders/view"))];
  }

  /** An ignored exception class is not reported; any other class is reported once. */
  method IgnoredExceptionNotReported() {
    var newRelic := new NewRelic(true, _ => false, _ => "");
    newRelic.IgnoreException(["ValidationError"]);
    newRelic.SendException(Throwable("ValidationError", "invalid"));
    assert newRelic.log == [];
    var other := Throwable("RuntimeException", "boom");
    newRelic.SendException(other);
    assert newRelic.log == [NoticeException(other)];
  }

  /** An ignored substring anywhere in the description keeps the error back. */
  method IgnoredErrorNotReported() {
    var newRelic := new NewRelic(true, _ => false, _ => "");
    newRelic.IgnoreError(["deprecated"]);
    var description := "function is deprecated";
    assert newRelic.ignoredErrors == ["deprecated"];
    assert OccursAt(description, newRelic.ignoredErrors[0], 12);
    SuppressedMeansOccurs(newRelic.ignoredErrors, description);
    var outcome := newRelic.SendError(Int(8192), Str(description), Str("a.php"), Int(3), Null);
    assert outcome == Pass && newRelic.log == [];
  }

  /** A `null` description is forwarded while nothing is ignored, and throws once something is. */
  method NullDescription() {
    var newRelic := new NewRelic(true, _ => false, _ => "");
    var outcome := newRelic.SendError(Int(8192), Null, Null, Null, Null);
    assert outcome == Pass && newRelic.log == [NoticeError(Int(8192), Null, Null, Null, Null)];
    newRelic.IgnoreError(["deprecated"]);
    outcome := newRelic.SendError(Int(8192), Null, Null, Null, Null);
    assert outcome == Fail(HaystackTypeErrorMessage);
    assert newRelic.log == [NoticeError(Int(8192), Null, Null, Null, Null)];
  }

  /** The error middleware's `collect`: server and cookie entries off the allow-lists do not go out. */
  method CollectOnError() {
    var newRelic := new NewRelic(true, _ => false, _ => "{}");
    newRelic.CollectServerVariables(["HTTP_HOST"]);
    var server := [("HTTP_COOKIE", Str("secret"))];
    var cookie := [("sid", Str("0123"))];
    assert server[..0] == [] && cookie[..0] == [];
    assert "HTTP_COOKIE" !in newRelic.serverVariables && "sid" !in newRelic.cookieVariables;
    assert Allowed(server, newRelic.serverVariables, "server_") == [];
    assert Allowed(cookie, newRelic.cookieVariables, "cookie_") == [];
    assert newRelic.Forwarded(Array([])) == Str("{}");
    newRelic.Collect([], [], [], server, cookie);
    assert newRelic.log == [AddCustomParameter("_get", Str("{}")),
                            AddCustomParameter("_post", Str("{}")),
                            AddCustomParameter("_files", Str("{}"))];
  }

  /** Without the extension nothing is forwarded and even a non-numeric metric does not throw. */
  method UnavailableIsSilent() {
    var newRelic := new NewRelic(false, _ => false, _ => "");
    var outcome := newRelic.Metric("orders", Str("many"));
    assert outcome == Pass;
    newRelic.Start(Some("Orders/view"));
    newRelic.SendException(Throwable("RuntimeException", "boom"));
    newRelic.Collect([("q", Str("1"))], [], [], [("HTTP_HOST", Str("example.org"))], []);
    assert newRelic.log == [];
    assert newRelic.currentTransactionName == None;
  }

  /** With the extension a non-numeric metric throws and forwards nothing. */
  method NonNumericMetricThrows() {
    var newRelic := new NewRelic(true, _ => false, _ => "");
    var outcome := newRelic.Metric("orders", Str("many"));
    assert outcome == Fail(NotNumericMessage) && newRelic.log == [];
    outcome := newRelic.Metric("orders", Int(3));
    assert outcome == Pass && newRelic.log == [CustomMetric("orders", Int(3))];
  }
}
