/** Which sessions share a title. */
module Titles {
  import opened Ordered
  import opened Outcomes
  import opened Sessions
  import opened Tables
  import opened Text
  import opened TextLaws

  const DOT := '·'

  predicate Unlabelled(s: Session) {
    s.meta.deviceLabel.None? || Strip(s.meta.deviceLabel.value) == ""
  }

  function AgentOf(s: Session): Agent {
    ParseUserAgent(s.meta.userAgent)
  }

  predicate Dotless(s: string) {
    forall i :: 0 <= i < |s| ==> s[i] != DOT
  }

  lemma Agents(userAgent: Option<string>)
    ensures Dotless(ParseUserAgent(userAgent).browser) && ParseUserAgent(userAgent).system != ""
  {
    hide Contains, Lower, Strip;
  }

  // ---------------------------------------------------------------- what a user agent says

  datatype Marker = Marker(token: string, name: string)

  const BROWSERS := [
    Marker("edg/", "Edge"), Marker("chrome/", "Chrome"), Marker("safari/", "Safari"), Marker("firefox/", "Firefox"),
    Marker("minibot-cli", "CLI"), Marker("vercel", "CLI")]

  const SYSTEMS := [
    Marker("mac os", "macOS"), Marker("macintosh", "macOS"), Marker("windows", "Windows"), Marker("android", "Android"),
    Marker("iphone", "iOS"), Marker("ipad", "iOS"), Marker("ios", "iOS"), Marker("linux", "Linux"),
    Marker("darwin", "macOS")]

  const KINDS := [
    Marker("iphone", "mobile"), Marker("android", "mobile"), Marker("mobile", "mobile"), Marker("ipad", "mobile"),
    Marker("electron", "desktop"), Marker("minibot-cli", "desktop"), Marker("curl/", "desktop"),
    Marker("python-requests", "desktop"), Marker("go-http", "desktop")]

  predicate Occurs(token: string, text: string) {
    exists i :: 0 <= i <= |text| && token <= text[i..]
  }

  /** `name` goes with the first marker that occurs in the text, or is the fallback when none does. */
  predicate FirstMarked(markers: seq<Marker>, text: string, fallback: string, name: string) {
    || (name == fallback && forall k :: 0 <= k < |markers| ==> !Occurs(markers[k].token, text))
    || exists k :: 0 <= k < |markers| && MarksFirst(markers, text, k) && name == markers[k].name
  }

  predicate MarksFirst(markers: seq<Marker>, text: string, k: nat)
    requires k < |markers|
  {
    Occurs(markers[k].token, text) && forall j :: 0 <= j < k ==> !Occurs(markers[j].token, text)
  }

  lemma TokensOccur(text: string, markers: seq<Marker>)
    ensures forall k :: 0 <= k < |markers| ==> (Contains(text, markers[k].token) <==> Occurs(markers[k].token, text))
  {
    forall k | 0 <= k < |markers| ensures Contains(text, markers[k].token) <==> Occurs(markers[k].token, text) {
      ContainsOccurs(text, markers[k].token);
    }
  }

  /** Browser, system and kind go by the first known token in the text, whatever its case; a blank text is unknown. */
  lemma AgentByFirstToken(userAgent: Option<string>)
    ensures var agent, text := ParseUserAgent(userAgent), if userAgent.Some? then Lower(Strip(userAgent.value)) else "";
            if text == "" then agent == Agent("未知设备", "未知系统", "browser")
            else
              && FirstMarked(KINDS, text, "browser", agent.kind)
              && FirstMarked(SYSTEMS, text, "未知系统", agent.system)
              && FirstMarked(BROWSERS, text, NoBrowser(agent.kind), agent.browser)
  {
    var agent, text := ParseUserAgent(userAgent), if userAgent.Some? then Lower(Strip(userAgent.value)) else "";
    StripFixpoint("");
    if text != "" {
      KindByToken(userAgent, text);
      SystemByToken(userAgent, text);
      BrowserByToken(userAgent, text);
    }
    hide ParseUserAgent, FirstMarked;
  }

  function NoBrowser(kind: string): string {
    if kind == "desktop" then "桌面客户端" else "浏览器"
  }

  lemma MarkedAt(markers: seq<Marker>, text: string, fallback: string, name: string, k: nat)
    requires k <= |markers| && name == if k < |markers| then markers[k].name else fallback
    requires forall j :: 0 <= j < k ==> !Occurs(markers[j].token, text)
    requires k < |markers| ==> Occurs(markers[k].token, text)
    ensures FirstMarked(markers, text, fallback, name)
  {
    hide Occurs;
    if k < |markers| {
      assert MarksFirst(markers, text, k);
    }
  }

  lemma KindByToken(userAgent: Option<string>, text: string)
    requires userAgent.Some? && text == Lower(Strip(userAgent.value)) && text != ""
    ensures FirstMarked(KINDS, text, "browser", ParseUserAgent(userAgent).kind)
  {
    TokensOccur(text, KINDS);
    hide Contains, Occurs, Lower, Strip;
    var k :=
      if Contains(text, "iphone") then 0
      else if Contains(text, "android") then 1
      else if Contains(text, "mobile") then 2
      else if Contains(text, "ipad") then 3
      else if Contains(text, "electron") then 4
      else if Contains(text, "minibot-cli") then 5
      else if Contains(text, "curl/") then 6
      else if Contains(text, "python-requests") then 7
      else if Contains(text, "go-http") then 8
      else 9;
    MarkedAt(KINDS, text, "browser", ParseUserAgent(userAgent).kind, k);
  }

  lemma SystemByToken(userAgent: Option<string>, text: string)
    requires userAgent.Some? && text == Lower(Strip(userAgent.value)) && text != ""
    ensures FirstMarked(SYSTEMS, text, "未知系统", ParseUserAgent(userAgent).system)
  {
    TokensOccur(text, SYSTEMS);
    hide Contains, Occurs, Lower, Strip;
    var k :=
      if Contains(text, "mac os") then 0
      else if Contains(text, "macintosh") then 1
      else if Contains(text, "windows") then 2
      else if Contains(text, "android") then 3
      else if Contains(text, "iphone") then 4
      else if Contains(text, "ipad") then 5
      else if Contains(text, "ios") then 6
      else if Contains(text, "linux") then 7
      else if Contains(text, "darwin") then 8
      else 9;
    MarkedAt(SYSTEMS, text, "未知系统", ParseUserAgent(userAgent).system, k);
  }

  lemma BrowserByToken(userAgent: Option<string>, text: string)
    requires userAgent.Some? && text == Lower(Strip(userAgent.value)) && text != ""
    ensures FirstMarked(BROWSERS, text, NoBrowser(ParseUserAgent(userAgent).kind), ParseUserAgent(userAgent).browser)
  {
    TokensOccur(text, BROWSERS);
    hide Contains, Occurs, Lower, Strip;
    var k :=
      if Contains(text, "edg/") then 0
      else if Contains(text, "chrome/") then 1
      else if Contains(text, "safari/") then 2
      else if Contains(text, "firefox/") then 3
      else if Contains(text, "minibot-cli") then 4
      else if Contains(text, "vercel") then 5
      else 6;
    MarkedAt(BROWSERS, text, NoBrowser(ParseUserAgent(userAgent).kind), ParseUserAgent(userAgent).browser, k);
  }

  // ---------------------------------------------------------------- titles

  /** A browser and a system can be read back from a title made of both. */
  lemma TitleSplits(a: string, x: string, b: string, y: string)
    requires Dotless(a) && Dotless(b)
    ensures a + " · " + x == b + " · " + y <==> a == b && x == y
    ensures a + " · " + x != b
  {
    var s, t := a + " · " + x, b + " · " + y;
    assert s[|a| + 1] == DOT && t[|b| + 1] == DOT;
    if s == t {
      assert forall i :: 0 <= i < |a| + 1 ==> s[i] != DOT;
      assert forall i :: 0 <= i < |b| + 1 ==> t[i] != DOT;
      assert s[..|a|] == a && t[..|b|] == b && s[|a| + 3..] == x && t[|b| + 3..] == y;
    }
  }

  /** A label that is not blank is the title, stripped. */
  lemma LabelIsTitle(s: Session)
    ensures !Unlabelled(s) ==> DisplayName(s) == Strip(s.meta.deviceLabel.value)
  {
    hide ParseUserAgent;
  }

  /** Without a label the title is the browser, followed by the system when that is known. */
  lemma UnlabelledTitle(s: Session)
    requires Unlabelled(s)
    ensures var agent := AgentOf(s);
            DisplayName(s) == agent.browser + if agent.system == "未知系统" then "" else " · " + agent.system
  {
    Agents(s.meta.userAgent);
    StripFixpoint("");
    hide ParseUserAgent;
  }

  /** Two sessions without a label share a title exactly when they have the same browser and the same system. */
  lemma UnlabelledShareExactly(s: Session, t: Session)
    requires Unlabelled(s) && Unlabelled(t)
    ensures DisplayName(s) == DisplayName(t) <==>
            AgentOf(s).browser == AgentOf(t).browser && AgentOf(s).system == AgentOf(t).system
  {
    var a, b := AgentOf(s), AgentOf(t);
    Agents(s.meta.userAgent);
    Agents(t.meta.userAgent);
    StripFixpoint("");
    TitleSplits(a.browser, a.system, b.browser, b.system);
    TitleSplits(b.browser, b.system, a.browser, a.system);
    hide ParseUserAgent, Dotless;
  }

  // ---------------------------------------------------------------- what a revocation logs

  /** `part` takes the rows of `whole` at the increasing positions `at`. */
  predicate TakenAt(part: seq<nat>, whole: seq<nat>, at: seq<nat>) {
    && |at| == |part|
    && (forall k :: 0 <= k < |part| ==> at[k] < |whole| && part[k] == whole[at[k]])
    && forall j, k :: 0 <= j < k < |at| ==> at[j] < at[k]
  }

  lemma {:induction false} SameNameInOrder(sessions: seq<Session>, ids: seq<nat>, name: string, current: Option<nat>)
    returns (at: seq<nat>)
    requires Rows(sessions, ids)
    ensures TakenAt(SameName(sessions, ids, name, current), ids, at)
  {
    if ids == [] {
      at := [];
    } else {
      SameNameStep(sessions, ids, name, current);
      hide *;
      var rest := SameNameInOrder(sessions, ids[1..], name, current);
      var kept := SameName(sessions, ids[1..], name, current);
      var later := TakenLater(kept, ids, rest);
      if DisplayName(sessions[ids[0]]) == name && current != Some(ids[0]) {
        at := [0] + later;
        TakenFirst(kept, ids, later);
      } else {
        at := later;
      }
    }
  }

  lemma SameNameStep(sessions: seq<Session>, ids: seq<nat>, name: string, current: Option<nat>)
    requires Rows(sessions, ids) && ids != []
    ensures ids[0] < |sessions| && Rows(sessions, ids[1..])
    ensures var rest := SameName(sessions, ids[1..], name, current);
            SameName(sessions, ids, name, current)
            == if DisplayName(sessions[ids[0]]) == name && current != Some(ids[0]) then [ids[0]] + rest else rest
  {
    hide DisplayName;
  }

  lemma TakenFirst(part: seq<nat>, whole: seq<nat>, later: seq<nat>)
    requires whole != [] && TakenAt(part, whole, later) && forall k :: 0 <= k < |later| ==> later[k] > 0
    ensures TakenAt([whole[0]] + part, whole, [0] + later)
  {
  }

  /** Positions in a tail, seen from the whole. */
  lemma TakenLater(part: seq<nat>, whole: seq<nat>, at: seq<nat>) returns (later: seq<nat>)
    requires whole != [] && TakenAt(part, whole[1..], at)
    ensures TakenAt(part, whole, later) && forall k :: 0 <= k < |later| ==> later[k] > 0
  {
    later := seq(|at|, k requires 0 <= k < |at| => at[k] + 1);
    forall k | 0 <= k < |part| ensures later[k] < |whole| && part[k] == whole[later[k]] {
      assert part[k] == whole[1..][at[k]];
    }
  }

  /** A revocation logs exactly the sessions it closes, in the order they are listed. */
  lemma RevocationLogsInOrder(a: AuthTables, now: int, user: nat, sid: nat, current: Option<nat>) returns (at: seq<nat>)
    requires RevokeSecuritySession(a, now, user, sid, current).1 == Ok
    ensures var b := RevokeSecuritySession(a, now, user, sid, current).0;
            && |b.audit| == |a.audit| + 1 && |b.sessions| == |a.sessions|
            && var target := b.audit[|a.audit|].target;
            && target.SessionIds? && TakenAt(target.ids, LoadActiveSessions(a.sessions, user, now), at)
            && forall x :: 0 <= x < |a.sessions| ==>
                 (x in target.ids <==> a.sessions[x].Live() && !b.sessions[x].Live())
  {
    var ids, name := LoadActiveSessions(a.sessions, user, now), DisplayName(a.sessions[sid]);
    at := SameNameInOrder(a.sessions, ids, name, current);
    var targets := SameName(a.sessions, ids, name, current);
    assert forall x :: x in Elements(targets) <==> x in targets;
    hide DisplayName, LoadActiveSessions, SameName;
  }

  /** Revoking a session without a label leaves live every session without a label of another browser or system. */
  lemma RevocationSparesOtherAgents(a: AuthTables, now: int, user: nat, sid: nat, current: Option<nat>, x: nat)
    requires sid < |a.sessions| && x < |a.sessions| && a.sessions[x].Live()
    requires Unlabelled(a.sessions[sid]) && Unlabelled(a.sessions[x])
    requires AgentOf(a.sessions[x]).browser != AgentOf(a.sessions[sid]).browser
             || AgentOf(a.sessions[x]).system != AgentOf(a.sessions[sid]).system
    ensures var b := RevokeSecuritySession(a, now, user, sid, current).0;
            |b.sessions| == |a.sessions| && b.sessions[x].Live()
  {
    UnlabelledShareExactly(a.sessions[x], a.sessions[sid]);
    RevokeSessionClosesExactly(a, now, user, sid, current, x);
    hide RevokeSecuritySession, DisplayName;
  }
}
