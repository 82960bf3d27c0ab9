/**
 Claude Code's own login, as files: the plaintext credentials file and the global config, on a
 platform without a Keychain. A login lives on one of two axes, an OAuth credential or a managed
 API key; writing one clears the other, and the clearing is best-effort.
 */
module ActiveStore {
  import opened Basics

  /** The `oauthAccount` section of a config; `rest` stands for its other keys. */
  datatype Account = Account(email: string, org: string, rest: string)

  /** The global config file; `rest` stands for every key that no operation here touches. */
  datatype Config =
    | Missing
    | Corrupt(text: string)
    | Good(oauth: Option<Account>, apiKey: Option<string>, approved: seq<string>, rest: string)

  const BLANK := Good(None, None, [], "")

  datatype Live = Live(credFile: Option<string>, config: Config)

  const API_KEY_PREFIX := "sk-ant-api"

  predicate LooksLikeAPIKey(c: string) {
    c != "" && API_KEY_PREFIX <= Trim(c)
  }

  /** The last twenty characters of the key. */
  function ApprovedForm(key: string): string {
    var t := Trim(key);
    if |t| <= 20 then t else t[|t| - 20..]
  }

  predicate HasOAuthFile(l: Live) {
    l.credFile.Some? && Trim(l.credFile.value) != ""
  }

  function ManagedKey(l: Live): string {
    if l.config.Good? && l.config.apiKey.Some? then l.config.apiKey.value else ""
  }

  /** The OAuth file wins, unless it is blank. */
  function ReadActive(l: Live): string {
    if HasOAuthFile(l) then l.credFile.value else ManagedKey(l)
  }

  /** An unparseable config is replaced, not repaired. */
  function Parsed(c: Config): Config {
    if c.Good? then c else BLANK
  }

  function WroteOAuth(l: Live, c: string, cleared: bool): Live {
    Live(Some(c), if cleared && l.config.Good? then l.config.(apiKey := None) else l.config)
  }

  function WroteManaged(l: Live, key: string, cleared: bool): Live {
    var cfg := Parsed(l.config);
    var form := ApprovedForm(key);
    Live(if cleared then None else l.credFile,
         cfg.(apiKey := Some(key), approved := if form in cfg.approved then cfg.approved else cfg.approved + [form]))
  }

  /** `cleared` says whether the best-effort clearing of the other axis worked. */
  function WroteActive(l: Live, c: string, cleared: bool): Live {
    if LooksLikeAPIKey(c) then WroteManaged(l, Trim(c), cleared) else WroteOAuth(l, c, cleared)
  }

  /** The value reads back as it was written. */
  predicate ReadsBack(l: Live, c: string, cleared: bool) {
    if !LooksLikeAPIKey(c) then Trim(c) != "" || c == (if cleared then "" else ManagedKey(l))
    else if cleared || !HasOAuthFile(l) then Trim(c) == c
    else l.credFile.value == c
  }

  /**
   What was written is read back exactly when it is not blank and, for an API key, has no
   surrounding space and no OAuth file was left to shadow it. A blank one is skipped by the
   read, which then falls through to the key.
   */
  lemma WriteReadsBackExactly(l: Live, c: string, cleared: bool)
    ensures ReadActive(WroteActive(l, c, cleared)) == c <==> ReadsBack(l, c, cleared)
  {
    assert LooksLikeAPIKey(c) ==> Trim(c) != "";
  }

  /** After a write whose clearing worked, one axis at most carries a login. */
  lemma OneAxis(l: Live, c: string)
    ensures var after := WroteActive(l, c, true);
            !(HasOAuthFile(after) && ManagedKey(after) != "")
  {
  }

  function OAuthOf(l: Live): Option<Account> {
    if l.config.Good? then l.config.oauth else None
  }

  lemma WriteKeepsAccount(l: Live, c: string, cleared: bool)
    ensures OAuthOf(WroteActive(l, c, cleared)) == OAuthOf(l)
    ensures l.config.Good? ==>
              && WroteActive(l, c, cleared).config.Good? && WroteActive(l, c, cleared).config.rest == l.config.rest
              && (!LooksLikeAPIKey(c) ==> WroteActive(l, c, cleared).config.approved == l.config.approved)
  {
  }

  /** The end of the key without surrounding space: twenty characters, or all of it if it has no more. */
  predicate ShortForm(key: string, short: string) {
    EndsWith(Trim(key), short) && (if |short| < 20 then short == Trim(key) else |short| == 20)
  }

  predicate EndsWith(s: string, end: string) {
    |end| <= |s| && s[|s| - |end|..] == end
  }

  /** The key's short form is among the approved ones, and nothing else is new among them. */
  ghost predicate ApprovesOnly(before: seq<string>, after: seq<string>, key: string) {
    && (exists f :: f in after && ShortForm(key, f))
    && (forall f :: f in before ==> f in after)
    && forall f :: f in after ==> f in before || ShortForm(key, f)
  }

  /** Activating a key approves its short form and nothing else, and withdraws no earlier approval. */
  lemma KeysAreApproved(l: Live, c: string, cleared: bool)
    requires LooksLikeAPIKey(c)
    ensures WroteActive(l, c, cleared).config.Good?
    ensures ApprovesOnly(Parsed(l.config).approved, WroteActive(l, c, cleared).config.approved, c)
  {
    TrimTwice(c);
    assert ShortForm(c, ApprovedForm(c));
    assert ApprovedForm(c) in WroteActive(l, c, cleared).config.approved;
  }
}
