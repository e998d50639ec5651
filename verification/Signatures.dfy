/** notify/signature.go: the identity of a set of alerts. */
module Signatures {
  import opened Alerts
  import opened Strings

  const QUEUE_PREFIX := "rabbitmq."
  const NO_CONSUMER := "no_consumer"
  const BACKLOG := "backlog"

  /** The result of matching a field against the queue pattern. */
  datatype QueueMatch = NoMatch | QueueMatch(vhost: string, kind: string)

  predicate DotFree(s: string) { '.' !in s }

  predicate IsKind(kind: string) { kind == NO_CONSUMER || kind == BACKLOG }

  function QueueField(vhost: string, queue: string, kind: string): string {
    QUEUE_PREFIX + vhost + "." + queue + "." + kind
  }

  /** The vhost-level name a queue-level field is folded to. */
  function VHostField(vhost: string, kind: string): string {
    QUEUE_PREFIX + vhost + "." + kind
  }

  /** What `^rabbitmq\.([^.]+)\.(.+)\.(no_consumer|backlog)$` means: `[^.]` excludes the dot,
      `.` excludes the newline, and both groups take at least one character. */
  predicate PatternHolds(field: string, vhost: string, queue: string, kind: string) {
    && field == "rabbitmq." + vhost + "." + queue + "." + kind
    && vhost != "" && '.' !in vhost && queue != "" && '\n' !in queue && (kind == "no_consumer" || kind == "backlog")
  }

  function FirstDot(s: string): (d: nat)
    ensures d <= |s|
    ensures DotFree(s[..d])
    ensures d < |s| ==> s[d] == '.'
  {
    if s == "" || s[0] == '.' then 0
    else
      var d := 1 + FirstDot(s[1..]);
      assert s[..d] == [s[0]] + s[1..][..d - 1];
      d
  }

  /** Does `tail` read `<queue>.<kind>` with a queue name the pattern accepts? */
  predicate EndsInKind(tail: string, kind: string) {
    HasSuffix(tail, "." + kind)
    && |tail| > 1 + |kind|
    && NewlineFree(tail[..|tail| - 1 - |kind|])
  }

  function KindOf(vhost: string, tail: string): QueueMatch {
    if EndsInKind(tail, NO_CONSUMER) then QueueMatch(vhost, NO_CONSUMER)
    else if EndsInKind(tail, BACKLOG) then QueueMatch(vhost, BACKLOG)
    else NoMatch
  }

  /** The match of what follows the prefix: the first dot ends the vhost. */
  function MatchRest(rest: string): QueueMatch {
    var d := FirstDot(rest);
    if d == 0 || d == |rest| then NoMatch
    else KindOf(rest[..d], rest[d + 1..])
  }

  function Match(field: string): QueueMatch {
    if HasPrefix(field, QUEUE_PREFIX) then MatchRest(field[|QUEUE_PREFIX|..]) else NoMatch
  }

  function NormalizeField(field: string): string {
    match Match(field)
    case NoMatch => field
    case QueueMatch(vhost, kind) => VHostField(vhost, kind)
  }

  lemma {:induction false} FirstDotOfVHost(vhost: string, tail: string)
    requires DotFree(vhost)
    ensures FirstDot(vhost + "." + tail) == |vhost|
  {
    if vhost != "" {
      assert (vhost + "." + tail)[1..] == vhost[1..] + "." + tail;
      FirstDotOfVHost(vhost[1..], tail);
    }
  }

  lemma Reassociate(vhost: string, queue: string, kind: string)
    ensures QueueField(vhost, queue, kind) == QUEUE_PREFIX + (vhost + "." + (queue + ("." + kind)))
    ensures VHostField(vhost, kind) == QUEUE_PREFIX + (vhost + "." + kind)
  {
  }

  lemma MatchAfterPrefix(rest: string)
    ensures Match(QUEUE_PREFIX + rest) == MatchRest(rest)
  {
    assert (QUEUE_PREFIX + rest)[..|QUEUE_PREFIX|] == QUEUE_PREFIX;
    assert (QUEUE_PREFIX + rest)[|QUEUE_PREFIX|..] == rest;
  }

  lemma MatchAfterVHost(vhost: string, tail: string)
    requires vhost != "" && DotFree(vhost)
    ensures MatchRest(vhost + "." + tail) == KindOf(vhost, tail)
  {
    FirstDotOfVHost(vhost, tail);
    var rest := vhost + "." + tail;
    assert rest[..|vhost|] == vhost && rest[|vhost| + 1..] == tail;
  }

  lemma KindAfterQueue(vhost: string, queue: string, kind: string)
    requires queue != "" && NewlineFree(queue) && IsKind(kind)
    ensures KindOf(vhost, queue + ("." + kind)) == QueueMatch(vhost, kind)
  {
    var tail := queue + ("." + kind);
    assert tail[|queue|..] == "." + kind && tail[..|queue|] == queue;
    assert tail[|tail| - 1] == kind[|kind| - 1];
  }

  /** Matching finds every way a field fits the pattern, ... */
  lemma MatchIsComplete(field: string, vhost: string, queue: string, kind: string)
    requires PatternHolds(field, vhost, queue, kind)
    ensures Match(field) == QueueMatch(vhost, kind)
  {
    Reassociate(vhost, queue, kind);
    MatchAfterPrefix(vhost + "." + (queue + ("." + kind)));
    MatchAfterVHost(vhost, queue + ("." + kind));
    KindAfterQueue(vhost, queue, kind);
  }

  lemma KindIsSound(vhost: string, tail: string) returns (queue: string)
    requires KindOf(vhost, tail).QueueMatch?
    ensures queue != "" && NewlineFree(queue) && IsKind(KindOf(vhost, tail).kind)
    ensures KindOf(vhost, tail).vhost == vhost
    ensures tail == queue + ("." + KindOf(vhost, tail).kind)
  {
    var kind := KindOf(vhost, tail).kind;
    SuffixSplit(tail, "." + kind);
    queue := tail[..|tail| - 1 - |kind|];
  }

  /** ... and nothing else, so the two groups are determined by the field. */
  lemma MatchIsSound(field: string) returns (queue: string)
    requires Match(field).QueueMatch?
    ensures PatternHolds(field, Match(field).vhost, queue, Match(field).kind)
  {
    var rest := field[|QUEUE_PREFIX|..];
    var d := FirstDot(rest);
    queue := KindIsSound(rest[..d], rest[d + 1..]);
    SplitAt(rest, d);
    PrefixSplit(field, QUEUE_PREFIX);
    Reassociate(rest[..d], queue, Match(field).kind);
  }

  /** A field is folded exactly when it fits the pattern; every other field keeps its identity. */
  lemma FoldedExactlyWhenMatched(field: string)
    ensures NormalizeField(field) != field <==> exists v, q, k :: PatternHolds(field, v, q, k)
  {
    if Match(field).QueueMatch? {
      var q := MatchIsSound(field);
      assert |field| > |VHostField(Match(field).vhost, Match(field).kind)|;
    }
    forall v, q, k | PatternHolds(field, v, q, k)
      ensures NormalizeField(field) != field
    {
      MatchIsComplete(field, v, q, k);
      assert |field| > |VHostField(v, k)|;
    }
  }

  lemma QueueFieldInjective(vhost: string, q1: string, q2: string, kind: string)
    requires QueueField(vhost, q1, kind) == QueueField(vhost, q2, kind)
    ensures q1 == q2
  {
    var front, back := QUEUE_PREFIX + vhost + ".", "." + kind;
    assert QueueField(vhost, q1, kind) == front + q1 + back;
    assert QueueField(vhost, q2, kind) == front + q2 + back;
    ConcatInjective(front, q1, q2, back);
  }

  /** A queue-level field folds to its own vhost-level name exactly when the vhost is non-empty and
      free of dots and the queue name is non-empty and free of newlines. */
  lemma FoldsToItsVHostExactlyWhen(vhost: string, queue: string, kind: string)
    requires IsKind(kind)
    ensures NormalizeField(QueueField(vhost, queue, kind)) == VHostField(vhost, kind)
       <==> vhost != "" && DotFree(vhost) && queue != "" && NewlineFree(queue)
  {
    if vhost != "" && DotFree(vhost) && queue != "" && NewlineFree(queue) {
      MatchIsComplete(QueueField(vhost, queue, kind), vhost, queue, kind);
    }
    if NormalizeField(QueueField(vhost, queue, kind)) == VHostField(vhost, kind) {
      OnlyProperNamesFold(vhost, queue, kind);
    }
  }

  lemma OnlyProperNamesFold(vhost: string, queue: string, kind: string)
    requires IsKind(kind)
    requires NormalizeField(QueueField(vhost, queue, kind)) == VHostField(vhost, kind)
    ensures vhost != "" && DotFree(vhost) && queue != "" && NewlineFree(queue)
  {
    var field := QueueField(vhost, queue, kind);
    assert |field| > |VHostField(vhost, kind)|;
    var m := Match(field);
    var q := MatchIsSound(field);
    VHostFieldInjective(m.vhost, m.kind, vhost, kind);
    QueueFieldInjective(vhost, q, queue, kind);
  }

  lemma VHostFieldInjective(v1: string, k1: string, v2: string, k2: string)
    requires IsKind(k1) && IsKind(k2)
    requires VHostField(v1, k1) == VHostField(v2, k2)
    ensures v1 == v2 && k1 == k2
  {
    var f := VHostField(v1, k1);
    assert f[|f| - 1] == k1[|k1| - 1] == k2[|k2| - 1];
    assert VHostField(v1, k1) == QUEUE_PREFIX + v1 + ("." + k1);
    assert VHostField(v2, k2) == QUEUE_PREFIX + v2 + ("." + k2);
    ConcatInjective(QUEUE_PREFIX, v1, v2, "." + k1);
  }

  /** What is left of `<vhost>.<queue>` in the signature: the vhost when the pattern can tell it, which is
      the text before the first dot, and otherwise all of the text. */
  function FoldedText(text: string): string {
    var d := FirstDot(text);
    if 0 < d && d + 1 < |text| && NewlineFree(text[d + 1..]) then text[..d] else text
  }

  lemma TextFolds(vhost: string, queue: string)
    requires vhost != "" && DotFree(vhost) && queue != "" && NewlineFree(queue)
    ensures FoldedText(vhost + "." + queue) == vhost
  {
    var text := vhost + "." + queue;
    FirstDotOfVHost(vhost, queue);
    assert text[..|vhost|] == vhost && text[|vhost| + 1..] == queue;
  }

  lemma FoldedTextSplits(text: string) returns (queue: string)
    requires FoldedText(text) != text
    ensures text == FoldedText(text) + "." + queue
    ensures FoldedText(text) != "" && DotFree(FoldedText(text)) && queue != "" && NewlineFree(queue)
  {
    SplitAt(text, FirstDot(text));
    queue := text[FirstDot(text) + 1..];
  }

  lemma SameField(vhost: string, queue: string, kind: string)
    ensures QueueField(vhost, queue, kind) == VHostField(vhost + "." + queue, kind)
  {
  }

  lemma FoldableText(text: string, kind: string)
    requires IsKind(kind) && FoldedText(text) != text
    ensures NormalizeField(VHostField(text, kind)) == VHostField(FoldedText(text), kind)
  {
    var queue := FoldedTextSplits(text);
    SameField(FoldedText(text), queue, kind);
    MatchIsComplete(VHostField(text, kind), FoldedText(text), queue, kind);
  }

  lemma UnfoldableText(text: string, kind: string)
    requires IsKind(kind) && FoldedText(text) == text
    ensures Match(VHostField(text, kind)) == NoMatch
  {
    var m := Match(VHostField(text, kind));
    if m.QueueMatch? {
      var queue := MatchIsSound(VHostField(text, kind));
      SameField(m.vhost, queue, m.kind);
      VHostFieldInjective(text, kind, m.vhost + "." + queue, m.kind);
      TextFolds(m.vhost, queue);
    }
  }

  /** Normalisation of a queue-level field, whatever the names are. */
  lemma NormalizedQueueField(vhost: string, queue: string, kind: string)
    requires IsKind(kind)
    ensures NormalizeField(QueueField(vhost, queue, kind)) == VHostField(FoldedText(vhost + "." + queue), kind)
  {
    var text := vhost + "." + queue;
    SameField(vhost, queue, kind);
    if FoldedText(text) != text {
      FoldableText(text, kind);
    } else {
      UnfoldableText(text, kind);
    }
  }

  lemma ProperNamesFold(vhost: string, queue: string, kind: string)
    requires vhost != "" && DotFree(vhost) && queue != "" && NewlineFree(queue) && IsKind(kind)
    ensures NormalizeField(QueueField(vhost, queue, kind)) == VHostField(vhost, kind)
  {
    NormalizedQueueField(vhost, queue, kind);
    TextFolds(vhost, queue);
  }

  lemma NamesOfFields(vhost: string, queue: string, kind: string, suffix: string)
    requires suffix == "." + kind
    ensures QueueField(vhost, queue, kind) == "rabbitmq." + vhost + "." + queue + suffix
    ensures VHostField(vhost, kind) == "rabbitmq." + vhost + suffix
  {
  }

  /** What folding leaves of a backlog warning with proper names, ... */
  lemma BacklogFieldFolds(vhost: string, queue: string)
    requires vhost != "" && DotFree(vhost) && queue != "" && NewlineFree(queue)
    ensures NormalizeField("rabbitmq." + vhost + "." + queue + ".backlog") == "rabbitmq." + vhost + ".backlog"
  {
    NamesOfFields(vhost, queue, BACKLOG, ".backlog");
    ProperNamesFold(vhost, queue, BACKLOG);
  }

  /** ... and of one about a queue without consumer. */
  lemma NoConsumerFieldFolds(vhost: string, queue: string)
    requires vhost != "" && DotFree(vhost) && queue != "" && NewlineFree(queue)
    ensures NormalizeField("rabbitmq." + vhost + "." + queue + ".no_consumer") == "rabbitmq." + vhost + ".no_consumer"
  {
    NamesOfFields(vhost, queue, NO_CONSUMER, ".no_consumer");
    ProperNamesFold(vhost, queue, NO_CONSUMER);
  }

  lemma DotFreeTailHasNoKind(tail: string, kind: string)
    requires DotFree(tail)
    ensures !EndsInKind(tail, kind)
  {
    if HasSuffix(tail, "." + kind) {
      SuffixSplit(tail, "." + kind);
    }
  }

  lemma KindIsDotFree(kind: string)
    requires IsKind(kind)
    ensures DotFree(kind)
  {
  }

  lemma FoldedNameHasNoMatch(vhost: string, kind: string)
    requires vhost != "" && DotFree(vhost) && IsKind(kind)
    ensures Match(VHostField(vhost, kind)) == NoMatch
  {
    var rest := vhost + "." + kind;
    assert VHostField(vhost, kind) == QUEUE_PREFIX + rest;
    MatchAfterPrefix(rest);
    KindIsDotFree(kind);
    MatchOfFolded(vhost, kind);
  }

  lemma MatchOfFolded(vhost: string, kind: string)
    requires vhost != "" && DotFree(vhost) && DotFree(kind)
    ensures MatchRest(vhost + "." + kind) == NoMatch
  {
    MatchAfterVHost(vhost, kind);
    DotFreeTailHasNoKind(kind, NO_CONSUMER);
    DotFreeTailHasNoKind(kind, BACKLOG);
  }

  /** Folding a folded name changes nothing. */
  lemma NormalizeIsIdempotent(field: string)
    ensures NormalizeField(NormalizeField(field)) == NormalizeField(field)
  {
    if Match(field).QueueMatch? {
      var q := MatchIsSound(field);
      FoldedNameHasNoMatch(Match(field).vhost, Match(field).kind);
    }
  }

  lemma LastOfKind(vhost: string, queue: string, kind: string)
    requires IsKind(kind)
    ensures QueueField(vhost, queue, kind)[|QueueField(vhost, queue, kind)| - 1] in {'r', 'g'}
  {
    assert kind[|kind| - 1] in {'r', 'g'};
  }

  /** Fields that do not end like one of the two kinds are left alone ... */
  lemma OtherSuffixUntouched(front: string, last: char)
    requires last != 'r' && last != 'g'
    ensures NormalizeField(front + [last]) == front + [last]
  {
    var field := front + [last];
    assert field[|field| - 1] == last;
    FoldedExactlyWhenMatched(field);
    forall v, q, k | PatternHolds(field, v, q, k)
      ensures false
    {
      LastOfKind(v, q, k);
    }
  }

  /** ... among them all node-level RabbitMQ fields ... */
  lemma NodeFieldsUntouched(node: string)
    ensures NormalizeField("rabbitmq.node." + node + ".mem_alarm") == "rabbitmq.node." + node + ".mem_alarm"
    ensures NormalizeField("rabbitmq.node." + node + ".disk_free_alarm") == "rabbitmq.node." + node + ".disk_free_alarm"
  {
    OtherSuffixUntouched("rabbitmq.node." + node + ".mem_alar", 'm');
    assert "rabbitmq.node." + node + ".mem_alar" + ['m'] == "rabbitmq.node." + node + ".mem_alarm";
    OtherSuffixUntouched("rabbitmq.node." + node + ".disk_free_alar", 'm');
    assert "rabbitmq.node." + node + ".disk_free_alar" + ['m'] == "rabbitmq.node." + node + ".disk_free_alarm";
  }

  lemma {:induction false} NoDotFound(s: string)
    requires DotFree(s)
    ensures FirstDot(s) == |s|
  {
    if s != "" {
      NoDotFound(s[1..]);
    }
  }

  /** ... and the cluster-level ones, whose name after the prefix has no dot. */
  lemma ClusterFieldsUntouched(name: string)
    requires DotFree(name)
    ensures NormalizeField(QUEUE_PREFIX + name) == QUEUE_PREFIX + name
  {
    NoDotFound(name);
    MatchAfterPrefix(name);
  }

  function SignatureKey(it: AlertItem): string {
    it.host + "|" + NormalizeField(it.field)
  }

  /** The host is in the key: alerts of one field on two hosts have different keys. */
  lemma KeysTellHostsApart(a: AlertItem, b: AlertItem)
    requires NormalizeField(a.field) == NormalizeField(b.field)
    ensures SignatureKey(a) == SignatureKey(b) <==> a.host == b.host
  {
    var tail := "|" + NormalizeField(a.field);
    assert SignatureKey(a) == "" + a.host + tail && SignatureKey(b) == "" + b.host + tail;
    if SignatureKey(a) == SignatureKey(b) {
      ConcatInjective("", a.host, b.host, tail);
    }
  }

  lemma BarInLongerHost(h1: string, t1: string, h2: string, t2: string)
    requires |h2| < |h1| && h1 + "|" + t1 == h2 + "|" + t2
    ensures '|' in h1
  {
    assert h1[|h2|] == (h1 + "|" + t1)[|h2|] == (h2 + "|" + t2)[|h2|] == '|';
  }

  /** For hosts without a bar, a key is exactly the host and the folded field; the value and the threshold
      are not in it. */
  lemma KeyIsHostAndField(a: AlertItem, b: AlertItem)
    requires '|' !in a.host && '|' !in b.host
    ensures SignatureKey(a) == SignatureKey(b)
       <==> a.host == b.host && NormalizeField(a.field) == NormalizeField(b.field)
  {
    var x, y := NormalizeField(a.field), NormalizeField(b.field);
    if SignatureKey(a) != SignatureKey(b) {
    } else if |b.host| < |a.host| {
      BarInLongerHost(a.host, x, b.host, y);
    } else if |a.host| < |b.host| {
      BarInLongerHost(b.host, y, a.host, x);
    } else {
      assert a.host == (a.host + "|" + x)[..|a.host|] && b.host == (b.host + "|" + y)[..|b.host|];
      assert x == (a.host + "|" + x)[|a.host| + 1..] && y == (b.host + "|" + y)[|b.host| + 1..];
    }
  }

  function SignatureKeys(items: seq<AlertItem>): set<string> {
    set it | it in items :: SignatureKey(it)
  }

  function KeyList(items: seq<AlertItem>): (r: seq<string>)
    ensures |r| == |items|
    ensures forall i :: 0 <= i < |items| ==> r[i] == SignatureKey(items[i])
  {
    seq(|items|, i requires 0 <= i < |items| => SignatureKey(items[i]))
  }

  lemma KeyListElements(items: seq<AlertItem>)
    ensures Elements(KeyList(items)) == SignatureKeys(items)
  {
    var r := KeyList(items);
    forall k
      ensures k in Elements(r) <==> k in SignatureKeys(items)
    {
      if k in Elements(r) {
        var i :| 0 <= i < |r| && r[i] == k;
        assert items[i] in items;
      }
      if k in SignatureKeys(items) {
        var it :| it in items && SignatureKey(it) == k;
        var i :| 0 <= i < |items| && items[i] == it;
        assert r[i] == k;
      }
    }
  }

  /** What is fed to the hash: each key followed by a NUL. */
  function Encode(keys: seq<string>): string {
    if keys == [] then ""
    else Encode(keys[..|keys| - 1]) + keys[|keys| - 1] + ['\0']
  }

  function SignatureText(items: seq<AlertItem>): string {
    Encode(Sorted(KeyList(items)))
  }

  /** `digest` stands for hex(SHA-256(.)): any function will do. */
  function Signature(items: seq<AlertItem>, digest: string -> string): string {
    if items == [] then "" else digest(SignatureText(items))
  }

  /** No alerts and some alerts cannot be confused, since no digest is empty. */
  lemma EmptySignatureExactlyWhen(items: seq<AlertItem>, digest: string -> string)
    requires forall text :: digest(text) != ""
    ensures Signature(items, digest) == "" <==> items == []
  {
  }

  /** `seen[key] = struct{}{}` for each key. */
  method CollectKeys(keys: seq<string>) returns (seen: set<string>)
    ensures seen == Elements(keys)
  {
    seen := {};
    for i := 0 to |keys|
      invariant seen == Elements(keys[..i])
    {
      ElementsSnoc(keys[..i], keys[i]);
      assert keys[..i + 1] == keys[..i] + [keys[i]];
      seen := seen + {keys[i]};
    }
    assert keys[..|keys|] == keys;
  }

  method FeedHash(keys: seq<string>) returns (fed: string)
    ensures fed == Encode(keys)
  {
    fed := "";
    for i := 0 to |keys|
      invariant fed == Encode(keys[..i])
    {
      assert keys[..i + 1][..i] == keys[..i];
      fed := fed + keys[i];
      fed := fed + ['\0'];
    }
    assert keys[..|keys|] == keys;
  }

  method ComputeSignature(items: seq<AlertItem>, digest: string -> string) returns (sig: string)
    ensures sig == Signature(items, digest)
  {
    if |items| == 0 {
      return "";
    }
    var seen := CollectKeys(KeyList(items));
    var keys := KeysInSomeOrder(seen);
    SortedForgetsOrder(keys, KeyList(items));
    keys := SortKeys(keys);
    var fed := FeedHash(keys);
    sig := digest(fed);
  }

  predicate NulFree(s: string) { '\0' !in s }

  predicate AllNulFree(keys: seq<string>) {
    forall i :: 0 <= i < |keys| ==> NulFree(keys[i])
  }

  /** NUL-terminated concatenation of NUL-free strings can be taken apart again. */
  lemma {:induction false} EncodeInjective(a: seq<string>, b: seq<string>)
    requires AllNulFree(a) && AllNulFree(b)
    requires Encode(a) == Encode(b)
    ensures a == b
    decreases |a|
  {
    if a != [] && b != [] {
      var m, n := |a| - 1, |b| - 1;
      LastPieceIsDetermined(Encode(a[..m]), a[m], Encode(b[..n]), b[n], a[..m], b[..n]);
      EncodeInjective(a[..m], b[..n]);
      assert a == a[..m] + [a[m]] && b == b[..n] + [b[n]];
    }
  }

  lemma LastPieceIsDetermined(p: string, x: string, q: string, y: string, a: seq<string>, b: seq<string>)
    requires p == Encode(a) && q == Encode(b)
    requires NulFree(x) && NulFree(y)
    requires p + x + ['\0'] == q + y + ['\0']
    ensures p == q && x == y
  {
    var s, t := p + x, q + y;
    assert s == (s + ['\0'])[..|s|] && t == (t + ['\0'])[..|t|];
    assert |s + ['\0']| == |t + ['\0']|;
    assert s == t;
    NulStaysLeft(p, x, q, y);
    NulStaysLeft(q, y, p, x);
    assert s[..|p|] == p && t[..|q|] == q && s[|p|..] == x && t[|q|..] == y;
  }

  /** A part that ends in NUL does not reach into a NUL-free tail. */
  lemma NulStaysLeft(p: string, x: string, q: string, y: string)
    requires p + x == q + y && NulFree(x)
    requires q == "" || q[|q| - 1] == '\0'
    ensures |q| <= |p|
  {
    if q != "" {
      assert (q + y)[|q| - 1] == '\0';
    }
  }

  /** The hashed text identifies the set of host|field keys, in both directions. */
  lemma SignatureIsCanonical(a: seq<AlertItem>, b: seq<AlertItem>)
    requires forall it :: it in a + b ==> NulFree(SignatureKey(it))
    ensures SignatureText(a) == SignatureText(b) <==> SignatureKeys(a) == SignatureKeys(b)
  {
    KeyListElements(a);
    KeyListElements(b);
    if SignatureKeys(a) == SignatureKeys(b) {
      SortedForgetsOrder(KeyList(a), KeyList(b));
    }
    if SignatureText(a) == SignatureText(b) {
      SortedKeysNulFree(a);
      SortedKeysNulFree(b);
      EncodeInjective(Sorted(KeyList(a)), Sorted(KeyList(b)));
    }
  }

  lemma SortedKeysNulFree(a: seq<AlertItem>)
    requires forall it :: it in a ==> NulFree(SignatureKey(it))
    ensures AllNulFree(Sorted(KeyList(a)))
  {
    var s := Sorted(KeyList(a));
    KeyListElements(a);
    forall i | 0 <= i < |s|
      ensures NulFree(s[i])
    {
      assert s[i] in Elements(s);
      assert s[i] in SignatureKeys(a);
    }
  }

  lemma ShortFieldKey(field: string)
    requires !HasPrefix(field, QUEUE_PREFIX)
    ensures SignatureKey(AlertItem("", field, "", "")) == "|" + field
  {
  }

  lemma TextOfSorted(items: seq<AlertItem>, keys: seq<string>)
    requires StrictlySorted(keys) && SignatureKeys(items) == Elements(keys)
    ensures SignatureText(items) == Encode(keys)
  {
    KeyListElements(items);
    SortedIsUnique(Sorted(KeyList(items)), keys);
  }

  /** `Encode` of one key, and of two. */
  lemma EncodeShort(k: string, l: string)
    ensures Encode([k]) == k + ['\0']
    ensures Encode([k, l]) == k + ['\0'] + l + ['\0']
  {
    assert [k][..0] == [] && [k, l][..1] == [k];
  }

  lemma TextOfOne(a: AlertItem, k: string)
    requires SignatureKey(a) == k
    ensures SignatureText([a]) == k + ['\0']
    ensures SignatureKeys([a]) == {k}
  {
    assert SignatureKeys([a]) == {k} == Elements([k]);
    TextOfSorted([a], [k]);
    EncodeShort(k, k);
  }

  lemma TextOfTwo(a: AlertItem, b: AlertItem, k: string, l: string)
    requires SignatureKey(a) == k && SignatureKey(b) == l && Less(k, l)
    ensures SignatureText([a, b]) == k + ['\0'] + l + ['\0']
    ensures SignatureKeys([a, b]) == {k, l}
  {
    KeyListElements([a, b]);
    assert KeyList([a, b]) == [k, l] && Elements([k, l]) == {k, l};
    TextOfSorted([a, b], [k, l]);
    EncodeShort(k, l);
  }

  /** A key that holds a NUL imitates the two keys around it. */
  lemma KeyImitatesTwo(one: AlertItem, a: AlertItem, b: AlertItem, k: string, l: string)
    requires SignatureKey(a) == k && SignatureKey(b) == l && Less(k, l)
    requires SignatureKey(one) == k + ['\0'] + l
    ensures SignatureText([one]) == SignatureText([a, b]) && SignatureKeys([one]) != SignatureKeys([a, b])
  {
    TextOfOne(one, k + ['\0'] + l);
    TextOfTwo(a, b, k, l);
    assert |k + ['\0'] + l| > |k|;
    assert k in {k, l} && k !in {k + ['\0'] + l};
  }

  /** One alert whose field holds a NUL can imitate two alerts: other keys, but the same hashed text. */
  lemma NulImitatesTwo(x: string, y: string, both: string)
    requires both == x + ['\0', '|'] + y && Less(x, y)
    requires !HasPrefix(x, QUEUE_PREFIX) && !HasPrefix(y, QUEUE_PREFIX) && !HasPrefix(both, QUEUE_PREFIX)
    ensures var one, two := [AlertItem("", both, "", "")], [AlertItem("", x, "", ""), AlertItem("", y, "", "")];
            SignatureText(one) == SignatureText(two) && SignatureKeys(one) != SignatureKeys(two)
  {
    ShortFieldKey(both);
    ShortFieldKey(x);
    ShortFieldKey(y);
    assert ("|" + x)[1..] == x && ("|" + y)[1..] == y;
    assert "|" + both == "|" + x + ['\0'] + ("|" + y);
    KeyImitatesTwo(AlertItem("", both, "", ""), AlertItem("", x, "", ""), AlertItem("", y, "", ""), "|" + x, "|" + y);
  }

  /** For instance, so the signature is not canonical for all lists. */
  lemma NulBreaksTheEncoding()
    ensures var one, two := [AlertItem("", "x\0|y", "", "")], [AlertItem("", "x", "", ""), AlertItem("", "y", "", "")];
            SignatureText(one) == SignatureText(two) && SignatureKeys(one) != SignatureKeys(two)
  {
    assert Less("x", "y");
    NulImitatesTwo("x", "y", "x\0|y");
  }

  // ---- which alphabets are safe ----

  predicate Over(s: string, alphabet: set<char>) {
    forall c :: c in s ==> c in alphabet
  }

  /** Alerts with hosts without NUL and fields over the alphabet. */
  predicate AlertsOver(items: seq<AlertItem>, alphabet: set<char>) {
    forall it :: it in items ==> NulFree(it.host) && Over(it.field, alphabet)
  }

  /** Over such alerts the hashed text identifies the set of keys. */
  ghost predicate CanonicalOver(alphabet: set<char>) {
    forall a: seq<AlertItem>, b: seq<AlertItem> :: AlertsOver(a, alphabet) && AlertsOver(b, alphabet) ==>
      (SignatureText(a) == SignatureText(b) <==> SignatureKeys(a) == SignatureKeys(b))
  }

  /** Folding a field brings no new character into it. */
  lemma NormalizedNulFree(field: string)
    requires NulFree(field)
    ensures NulFree(NormalizeField(field))
  {
    if Match(field).QueueMatch? {
      var m := Match(field);
      var queue := MatchIsSound(field);
      FoldedNulFree(m.vhost, queue, m.kind);
    }
  }

  lemma FoldedNulFree(vhost: string, queue: string, kind: string)
    requires NulFree(QueueField(vhost, queue, kind))
    ensures NulFree(VHostField(vhost, kind))
  {
    var field := QueueField(vhost, queue, kind);
    assert forall c :: c in VHostField(vhost, kind) ==> c in QUEUE_PREFIX || c in vhost || c == '.' || c in kind;
    assert forall c :: c in QUEUE_PREFIX || c in vhost || c == '.' || c in kind ==> c in field;
  }

  lemma KeysNulFree(items: seq<AlertItem>, alphabet: set<char>)
    requires AlertsOver(items, alphabet) && '\0' !in alphabet
    ensures forall it :: it in items ==> NulFree(SignatureKey(it))
  {
    forall it | it in items
      ensures NulFree(SignatureKey(it))
    {
      NormalizedNulFree(it.field);
    }
  }

  lemma NulFreeIsCanonical(alphabet: set<char>)
    requires '\0' !in alphabet
    ensures CanonicalOver(alphabet)
  {
    forall a: seq<AlertItem>, b: seq<AlertItem> | AlertsOver(a, alphabet) && AlertsOver(b, alphabet)
      ensures SignatureText(a) == SignatureText(b) <==> SignatureKeys(a) == SignatureKeys(b)
    {
      KeysNulFree(a, alphabet);
      KeysNulFree(b, alphabet);
      SignatureIsCanonical(a, b);
    }
  }

  lemma ShortHasNoPrefix(s: string)
    requires |s| <= 4
    ensures !HasPrefix(s, QUEUE_PREFIX)
  {
  }

  lemma TwoListsRefute(a: seq<AlertItem>, b: seq<AlertItem>, alphabet: set<char>)
    requires AlertsOver(a, alphabet) && AlertsOver(b, alphabet)
    requires SignatureText(a) == SignatureText(b) && SignatureKeys(a) != SignatureKeys(b)
    ensures !CanonicalOver(alphabet)
  {
  }

  lemma FieldOver(field: string, alphabet: set<char>)
    requires Over(field, alphabet)
    ensures AlertsOver([AlertItem("", field, "", "")], alphabet)
  {
  }

  lemma NulIsNotCanonical(alphabet: set<char>, x: char, y: char)
    requires x in alphabet && y in alphabet && '|' in alphabet && '\0' in alphabet && x < y
    ensures !CanonicalOver(alphabet)
  {
    var a, b, both := [x], [y], [x] + ['\0', '|'] + [y];
    ShortHasNoPrefix(a);
    ShortHasNoPrefix(b);
    ShortHasNoPrefix(both);
    NulImitatesTwo(a, b, both);
    FieldOver(a, alphabet);
    FieldOver(b, alphabet);
    FieldOver(both, alphabet);
    var one, two := [AlertItem("", both, "", "")], [AlertItem("", a, "", ""), AlertItem("", b, "", "")];
    assert two == [two[0]] + [two[1]];
    TwoListsRefute(one, two, alphabet);
  }

  /** Over an alphabet with the bar and two more characters the signature is canonical exactly when NUL is
      not in the alphabet. */
  lemma CanonicalExactlyWhen(alphabet: set<char>, x: char, y: char)
    requires x in alphabet && y in alphabet && '|' in alphabet && x < y
    ensures CanonicalOver(alphabet) <==> '\0' !in alphabet
  {
    if '\0' in alphabet {
      NulIsNotCanonical(alphabet, x, y);
    } else {
      NulFreeIsCanonical(alphabet);
    }
  }

  /** Order and repetition of the alerts, their values and thresholds do not reach the signature. */
  lemma SignatureForgetsOrder(a: seq<AlertItem>, b: seq<AlertItem>, digest: string -> string)
    requires a == [] <==> b == []
    requires SignatureKeys(a) == SignatureKeys(b)
    ensures Signature(a, digest) == Signature(b, digest)
  {
    KeyListElements(a);
    KeyListElements(b);
    SortedForgetsOrder(KeyList(a), KeyList(b));
  }
}
