/**
 * Transaction-name derivation of `NewRelicTrait`: a web request becomes
 * `[prefix/][plugin/]controller/action[.ext]`, a shell invocation becomes
 * `[plugin/]name/command`. Both build a list of segments, skipping the
 * optional ones that are falsy, and join it with "/".
 */
module Naming {
  import opened Php

  /**
   * The unit of work a name is derived from. Request parameters the router
   * did not set and shell properties that are unset, such as the plugin of
   * a shell outside any plugin (PHP `null`), are given as "".
   */
  datatype WorkUnit =
    | Request(prefix: string, plugin: string, controller: string, action: string, ext: string)
    | Shell(plugin: string, name: string, command: string)

  /** An optional leading segment with its separator, or nothing when falsy. */
  function Lead(segment: string): string {
    if Truthy(segment) then segment + "/" else ""
  }

  /** An optional extension with its dot, or nothing when falsy. */
  function Suffix(ext: string): string {
    if Truthy(ext) then "." + ext else ""
  }

  predicate EndsWith(s: string, suffix: string) {
    |suffix| <= |s| && s[|s| - |suffix|..] == suffix
  }

  /** The segment list `_deriveNameFromRequest` builds before joining. */
  function RequestSegments(request: WorkUnit): (segments: seq<string>)
    requires request.Request?
    ensures |segments| == 2 + (if Truthy(request.prefix) then 1 else 0) + (if Truthy(request.plugin) then 1 else 0)
    ensures Truthy(request.prefix) ==> segments[0] == request.prefix
    ensures Truthy(request.plugin) ==> segments[|segments| - 3] == request.plugin
    ensures segments[|segments| - 2] == request.controller
    ensures segments[|segments| - 1] == request.action
    ensures forall i :: 0 <= i < |segments| - 2 ==> Truthy(segments[i])
  {
    var name: seq<string> := [];
    var name := if Truthy(request.prefix) then name + [request.prefix] else name;
    var name := if Truthy(request.plugin) then name + [request.plugin] else name;
    name + [request.controller] + [request.action]
  }

  /** The joined path of a request, before any extension. */
  function RequestPath(request: WorkUnit): string
    requires request.Request?
  {
    Join("/", RequestSegments(request))
  }

  /** `_deriveNameFromRequest`. */
  function DeriveNameFromRequest(request: WorkUnit): string
    requires request.Request?
  {
    var name := RequestPath(request);
    if Truthy(request.ext) then name + "." + request.ext else name
  }

  /** The segment list `_deriveNameFromShell` builds before joining. */
  function ShellSegments(shell: WorkUnit): (segments: seq<string>)
    requires shell.Shell?
    ensures |segments| == 2 + (if Truthy(shell.plugin) then 1 else 0)
    ensures Truthy(shell.plugin) ==> segments[0] == shell.plugin
    ensures segments[|segments| - 2] == shell.name
    ensures segments[|segments| - 1] == shell.command
    ensures forall i :: 0 <= i < |segments| - 2 ==> Truthy(segments[i])
  {
    var name: seq<string> := [];
    var name := if Truthy(shell.plugin) then name + [shell.plugin] else name;
    name + [shell.name] + [shell.command]
  }

  /** `_deriveNameFromShell`. */
  function DeriveNameFromShell(shell: WorkUnit): string
    requires shell.Shell?
  {
    Join("/", ShellSegments(shell))
  }

  /** Joining `[x, y]` or `[x] + more` unfolds into plain concatenation. */
  lemma JoinCons(x: string, rest: seq<string>)
    requires |rest| >= 1
    ensures Join("/", [x] + rest) == x + "/" + Join("/", rest)
  {
    assert ([x] + rest)[1..] == rest;
  }

  lemma JoinPair(x: string, y: string)
    ensures Join("/", [x, y]) == x + "/" + y
  {
    JoinCons(x, [y]);
  }

  /** An optional segment as a list: itself when truthy, nothing otherwise. */
  function Opt(segment: string): seq<string> {
    if Truthy(segment) then [segment] else []
  }

  /** An optional leading segment in front of a joined list of at least one part. */
  lemma LeadJoin(segment: string, rest: seq<string>)
    requires |rest| >= 1
    ensures Join("/", Opt(segment) + rest) == Lead(segment) + Join("/", rest)
  {
    if Truthy(segment) {
      JoinCons(segment, rest);
    } else {
      assert [] + rest == rest;
    }
  }

  /** The segment list is the optional prefix, the optional plugin, then controller and action. */
  lemma RequestSegmentsShape(request: WorkUnit)
    requires request.Request?
    ensures RequestSegments(request) == Opt(request.prefix) + (Opt(request.plugin) + [request.controller, request.action])
  {
  }

  /** The request path is the truthy optional segments, then controller/action. */
  lemma {:induction false} RequestPathLayout(request: WorkUnit)
    requires request.Request?
    ensures RequestPath(request) == Lead(request.prefix) + Lead(request.plugin) + request.controller + "/" + request.action
  {
    var tail := [request.controller, request.action];
    RequestSegmentsShape(request);
    JoinPair(request.controller, request.action);
    LeadJoin(request.plugin, tail);
    LeadJoin(request.prefix, Opt(request.plugin) + tail);
  }

  /**
   * The full request name, stated without lists: segments in the order
   * prefix, plugin, controller, action, each falsy optional one left out,
   * and ".ext" only for a truthy ext.
   */
  lemma {:induction false} RequestNameLayout(request: WorkUnit)
    requires request.Request?
    ensures DeriveNameFromRequest(request)
         == Lead(request.prefix) + Lead(request.plugin) + request.controller + "/" + request.action + Suffix(request.ext)
  {
    RequestPathLayout(request);
  }

  /** With no prefix, plugin or extension the name is `controller/action`. */
  lemma {:induction false} RequestNameBare(request: WorkUnit)
    requires request.Request?
    requires !Truthy(request.prefix) && !Truthy(request.plugin) && !Truthy(request.ext)
    ensures DeriveNameFromRequest(request) == request.controller + "/" + request.action
  {
    RequestNameLayout(request);
  }

  /**
   * A falsy optional parameter is skipped, not emitted: "0" names the
   * transaction exactly as an absent parameter does.
   */
  lemma {:induction false} RequestFalsyPartsSkipped(request: WorkUnit)
    requires request.Request?
    ensures !Truthy(request.prefix) ==> DeriveNameFromRequest(request) == DeriveNameFromRequest(request.(prefix := ""))
    ensures !Truthy(request.plugin) ==> DeriveNameFromRequest(request) == DeriveNameFromRequest(Request(request.prefix, "", request.controller, request.action, request.ext))
    ensures !Truthy(request.ext) ==> DeriveNameFromRequest(request) == DeriveNameFromRequest(request.(ext := ""))
  {
    RequestNameLayout(request);
    RequestNameLayout(request.(prefix := ""));
    RequestNameLayout(Request(request.prefix, "", request.controller, request.action, request.ext));
    RequestNameLayout(request.(ext := ""));
  }

  /** "." + ext follows the path exactly when ext is truthy; otherwise the name ends with the action. */
  lemma {:induction false} RequestNameExtension(request: WorkUnit)
    requires request.Request?
    ensures DeriveNameFromRequest(request) == RequestPath(request) + "." + request.ext <==> Truthy(request.ext)
    ensures !Truthy(request.ext) ==> EndsWith(DeriveNameFromRequest(request), request.action)
  {
    var path := RequestPath(request);
    if !Truthy(request.ext) {
      assert |path + "." + request.ext| > |path|;
      RequestPathLayout(request);
      var front := Lead(request.prefix) + Lead(request.plugin) + request.controller + "/";
      assert path == front + request.action;
      assert path[|path| - |request.action|..] == request.action;
    }
  }

  /**
   * When no segment contains "/", the request path cuts back into exactly
   * its segments, in order. It does not tell a lone prefix from a lone
   * plugin: both give the same segment list.
   */
  lemma {:induction false} RequestSegmentsRecoverable(request: WorkUnit)
    requires request.Request?
    requires '/' !in request.prefix && '/' !in request.plugin
    requires '/' !in request.controller && '/' !in request.action
    ensures Split(RequestPath(request), '/') == RequestSegments(request)
  {
    var segments := RequestSegments(request);
    assert forall i :: 0 <= i < |segments| ==> '/' !in segments[i];
    SplitJoin(segments, '/');
  }

  /** The shell name is `[plugin/]name/command`. */
  lemma {:induction false} ShellNameLayout(shell: WorkUnit)
    requires shell.Shell?
    ensures DeriveNameFromShell(shell) == Lead(shell.plugin) + shell.name + "/" + shell.command
  {
    JoinPair(shell.name, shell.command);
    if Truthy(shell.plugin) {
      JoinCons(shell.plugin, [shell.name, shell.command]);
      assert ShellSegments(shell) == [shell.plugin] + [shell.name, shell.command];
    } else {
      assert ShellSegments(shell) == [shell.name, shell.command];
    }
  }

  /** When no segment contains "/", the shell name cuts back into its segments. */
  lemma {:induction false} ShellSegmentsRecoverable(shell: WorkUnit)
    requires shell.Shell?
    requires '/' !in shell.plugin && '/' !in shell.name && '/' !in shell.command
    ensures Split(DeriveNameFromShell(shell), '/') == ShellSegments(shell)
  {
    var segments := ShellSegments(shell);
    assert forall i :: 0 <= i < |segments| ==> '/' !in segments[i];
    SplitJoin(segments, '/');
  }

  lemma ExampleFullRequest()
    ensures DeriveNameFromRequest(Request("Admin", "Shop", "Orders", "view", "json")) == "Admin/Shop/Orders/view.json"
  {
    RequestNameLayout(Request("Admin", "Shop", "Orders", "view", "json"));
  }

  lemma ExampleShellWithoutPlugin()
    ensures DeriveNameFromShell(Shell("", "Bake", "Model")) == "Bake/Model"
  {
    ShellNameLayout(Shell("", "Bake", "Model"));
  }
}
