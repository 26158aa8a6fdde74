/**
 Scanning the auth tree and the static failure reasons (`payload_records`,
 `scan_auth_records`, `static_failure_reason` in cloud/cloudx_cloud/cpa_auth.py).

 A credential file is given by the facts the scan reads from it; times are instants on
 one integer clock.
 */
module AuthScan {
  import opened Wrappers
  import opened Ranks
  import opened PathTexts
  import opened Grouping
  import opened QuarantineLedger

  const MAX_AUTH_FILES: nat := 4096

  /** An expiry field: absent, present but not a time, or a time. */
  datatype Expiry = Unset | Unparsable | At(instant: int)

  datatype BundleAccount = BundleAccount(isObject: bool, access: bool, refresh: bool, id: bool, expiry: Expiry)

  /** A file may be unreadable because it is a symbolic link, which the reader does not follow. */
  datatype ReadError = FileUnreadable(regular: bool) | NotRegular | TooLarge | InvalidJson | NotAnObjectDocument

  datatype Document =
    | Unreadable(error: ReadError)
    | Parsed(
        hasAccountList: bool,
        accounts: seq<BundleAccount>,
        authType: string,
        agentIdentity: bool,
        agentIdentityValid: bool,
        codexxAccount: string,
        access: bool,
        refresh: bool,
        id: bool,
        disabled: bool,
        expiry: Expiry,
        tokenExpiry: Expiry)

  predicate Regular(d: Document) {
    d.Unreadable? ==> !d.error.NotRegular? && (d.error.FileUnreadable? ==> d.error.regular)
  }

  datatype Reason =
    | Unknown
    | Disabled
    | BadFile(error: ReadError)
    | InvalidAgentIdentity
    | MissingTokens
    | ExpiredWithoutRefresh

  /** A scan record.  `invalid` carries the reason of an `invalid` status; `index` is its place in a bundle. */
  datatype Record = Record(
    path: Rel,
    index: nat,
    invalid: Option<Reason>,
    account: string,
    disabled: bool,
    agentIdentity: bool,
    access: bool,
    refresh: bool,
    expiry: Expiry)

  function InvalidRecord(path: Rel, reason: Reason): Record {
    Record(path, 0, Some(reason), "", false, false, false, false, Unset)
  }

  predicate Usable(a: BundleAccount) {
    a.isObject && (a.access || a.refresh || a.id)
  }

  function BundleRecords(path: Rel, accounts: seq<BundleAccount>, from: nat): seq<Record>
    requires from <= |accounts|
    decreases |accounts| - from
  {
    if from == |accounts| then []
    else
      var a := accounts[from];
      (if Usable(a) then [Record(path, from, None, "", false, false, a.access, a.refresh, a.expiry)] else [])
      + BundleRecords(path, accounts, from + 1)
  }

  /** The records of an account list: its usable accounts or, failing those, the document's own tokens. */
  function PayloadRecords(path: Rel, d: Document): seq<Record>
    requires d.Parsed?
  {
    var bundled := BundleRecords(path, d.accounts, 0);
    if bundled != [] then bundled
    else if !(d.access || d.refresh || d.id) then []
    else [Record(path, 0, None, d.codexxAccount, d.disabled, false, d.access, d.refresh, d.expiry)]
  }

  function FileRecords(path: Rel, d: Document): seq<Record> {
    if d.Unreadable? then [InvalidRecord(path, BadFile(d.error))]
    else if d.hasAccountList && PayloadRecords(path, d) != [] then PayloadRecords(path, d)
    else if d.authType != "" && d.authType != "codex" then []
    else if d.agentIdentity && !d.agentIdentityValid then [InvalidRecord(path, InvalidAgentIdentity)]
    else if !(d.authType == "codex" || d.codexxAccount != "" || d.access || d.refresh || d.id) then []
    else [Record(path, 0, None, d.codexxAccount, d.disabled, d.agentIdentity && d.agentIdentityValid, d.access, d.refresh,
                 if d.expiry.Unset? then d.tokenExpiry else d.expiry)]
  }

  function Lower(c: char): char {
    if 'A' <= c <= 'Z' then (c as int + 32) as char else c
  }

  predicate JsonName(name: string) {
    |name| >= 5 && forall i :: 0 <= i < 5 ==> Lower(name[|name| - 5 + i]) == ".json"[i]
  }

  /** The name ends with the suffix in whatever case. */
  lemma JsonNameIff(name: string)
    ensures JsonName(name) <==>
              && |name| >= 5 && name[|name| - 5] == '.' && name[|name| - 4] in {'j', 'J'} && name[|name| - 3] in {'s', 'S'}
              && name[|name| - 2] in {'o', 'O'} && name[|name| - 1] in {'n', 'N'}
  {
    forall c ensures (Lower(c) == 'j' <==> c in {'j', 'J'}) && (Lower(c) == 's' <==> c in {'s', 'S'})
              && (Lower(c) == 'o' <==> c in {'o', 'O'}) && (Lower(c) == 'n' <==> c in {'n', 'N'}) && (Lower(c) == '.' <==> c == '.') {}
    hide Lower;
    if |name| >= 5 {
      assert JsonName(name) <==>
          Lower(name[|name| - 5 + 0]) == ".json"[0] && Lower(name[|name| - 5 + 1]) == ".json"[1] && Lower(name[|name| - 5 + 2]) == ".json"[2]
          && Lower(name[|name| - 5 + 3]) == ".json"[3] && Lower(name[|name| - 5 + 4]) == ".json"[4];
    }
  }

  predicate JsonFile(p: Rel) {
    JsonName(BaseName(p))
  }

  /** Some order in which a directory walk can yield the JSON files of the tree, each once. */
  ghost predicate IsWalk(auth: map<Rel, Document>, walk: seq<Rel>) {
    && (forall p :: p in walk <==> p in auth && JsonFile(p))
    && (forall i, j :: 0 <= i < j < |walk| ==> walk[i] != walk[j])
  }

  function RawRecords(auth: map<Rel, Document>, walk: seq<Rel>): seq<Record>
    requires forall p :: p in walk ==> p in auth
  {
    if walk == [] then []
    else
      var last := walk[|walk| - 1];
      RawRecords(auth, walk[..|walk| - 1]) + FileRecords(last, auth[last])
  }

  lemma RawNext(auth: map<Rel, Document>, walk: seq<Rel>, i: nat)
    requires i < |walk| && forall p :: p in walk ==> p in auth
    ensures RawRecords(auth, walk[..i + 1]) == RawRecords(auth, walk[..i]) + FileRecords(walk[i], auth[walk[i]])
  {
    assert walk[..i + 1][..i] == walk[..i];
  }

  /** Depth first, then the path as text; the tree's own prefix is the same for all and left out. */
  function DepthRank(r: Record): Rank {
    Rank(|r.path|, PathText(r.path))
  }

  function PathRank(r: Record): Rank {
    Rank(0, PathText(r.path))
  }

  /** Records of one account stand for each other, and so do records of one file. */
  function GroupKey(r: Record): string {
    if r.account != "" then "codexx:" + r.account else "/" + PathText(r.path)
  }

  function Scan(auth: map<Rel, Document>, walk: seq<Rel>): seq<Record>
    requires forall p :: p in walk ==> p in auth
  {
    SortBy(FirstBy(SortBy(RawRecords(auth, walk), DepthRank), GroupKey), PathRank)
  }

  /** The de-duplication loop over ranked records. */
  method Deduplicate(ranked: seq<Record>) returns (kept: seq<Record>)
    ensures kept == FirstBy(ranked, GroupKey)
  {
    kept := [];
    var keys: set<string> := {};
    var i := 0;
    while i < |ranked|
      invariant 0 <= i <= |ranked|
      invariant kept == FirstBy(ranked[..i], GroupKey)
      invariant keys == set r | r in kept :: GroupKey(r)
    {
      assert ranked[..i + 1][..i] == ranked[..i];
      var key := GroupKey(ranked[i]);
      if key !in keys {
        kept := kept + [ranked[i]];
        keys := keys + {key};
      }
      i := i + 1;
    }
    assert ranked[..i] == ranked;
  }

  /** The whole scan; more JSON files than the limit are refused. */
  method ScanAuthRecords(auth: map<Rel, Document>, walk: seq<Rel>) returns (records: Option<seq<Record>>)
    requires forall p :: p in walk ==> p in auth
    ensures records == if |walk| > MAX_AUTH_FILES then None else Some(Scan(auth, walk))
  {
    hide FileRecords, GroupKey;
    var raw: seq<Record> := [];
    var i := 0;
    while i < |walk|
      invariant 0 <= i <= |walk|
      invariant i <= MAX_AUTH_FILES
      invariant raw == RawRecords(auth, walk[..i])
    {
      if i + 1 > MAX_AUTH_FILES {
        return None;
      }
      var path := walk[i];
      raw := raw + FileRecords(path, auth[path]);
      RawNext(auth, walk, i);
      i := i + 1;
    }
    assert walk[..i] == walk;
    var kept := Deduplicate(SortBy(raw, DepthRank));
    records := Some(SortBy(kept, PathRank));
  }

  /** Why a record fails, and whether for good. */
  function StaticFailureReason(r: Record, now: int): (Reason, bool) {
    if r.invalid.Some? then (r.invalid.value, true)
    else if r.disabled then (Disabled, false)
    else if r.agentIdentity then (Unknown, false)
    else if !r.access && !r.refresh then (MissingTokens, true)
    else if r.expiry.At? && r.expiry.instant <= now && !r.refresh then (ExpiredWithoutRefresh, true)
    else (Unknown, false)
  }

  /** The expiry is a time that is not in the future. */
  predicate Past(e: Expiry, now: int) {
    e.At? && e.instant <= now
  }

  /**
   What a credential needs to stay: it is valid, and it is disabled, an agent identity, has a
   refresh token or has an access token that has not expired.
   */
  predicate Healthy(r: Record, now: int) {
    r.invalid.None? && (r.disabled || r.agentIdentity || r.refresh || (r.access && !Past(r.expiry, now)))
  }

  /** What is wrong with a record that fails. */
  function FailureOf(r: Record): Reason {
    if r.invalid.Some? then r.invalid.value else if r.access then ExpiredWithoutRefresh else MissingTokens
  }

  /** A record whose invalid status carries one of the reasons a scan can give. */
  predicate Scanned(r: Record) {
    r.invalid.Some? ==> r.invalid.value !in {Unknown, Disabled}
  }

  /**
   The code's reason says all of this: a record fails, for good, if and only if it is not
   healthy, and then the reason is what is wrong with it; otherwise the reason is disabled
   or unknown.
   */
  lemma FailsIff(r: Record, now: int)
    requires Scanned(r)
    ensures var (reason, permanent) := StaticFailureReason(r, now);
            && (permanent <==> !Healthy(r, now)) && (reason in {Unknown, Disabled} <==> Healthy(r, now))
            && reason == (if !Healthy(r, now) then FailureOf(r) else if r.disabled then Disabled else Unknown)
  {}

  /** What fails at one time fails at every later one. */
  lemma FailsOn(r: Record, now: int, later: int)
    requires !Healthy(r, now) && now <= later
    ensures !Healthy(r, later)
  {}
}
