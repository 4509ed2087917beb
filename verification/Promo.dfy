/** The marketing blast: an in-place test filter over the audience, then one send per distinct
    phone and per distinct address, in list order. */
module Promo {
  import opened Common
  import MigrationMarkers
  import MigrationText

  datatype Recipient = Recipient(name: string, email: string, phone: string)

  datatype Channel = Both | Whatsapp | Email | Unknown

  // ---------------------------------------------------------------- phone keys

  predicate IsDigit(c: char) { '0' <= c <= '9' }

  function Digits(s: string): string {
    if s == [] then [] else Digits(s[..|s| - 1]) + (if IsDigit(s[|s| - 1]) then [s[|s| - 1]] else [])
  }

  method DigitsOnly(s: string) returns (r: string)
    ensures r == Digits(s)
  {
    r := [];
    for i := 0 to |s|
      invariant r == Digits(s[..i])
    {
      assert s[..i + 1][..i] == s[..i];
      if IsDigit(s[i]) {
        r := r + [s[i]];
      }
    }
    assert s[..|s|] == s;
  }

  function LastN(s: string, n: nat): string {
    if |s| <= n then s else s[|s| - n..]
  }

  function PhoneKey(phone: string): string { LastN(Digits(phone), 10) }

  lemma {:induction false} DigitsConcat(s: string, t: string)
    ensures Digits(s + t) == Digits(s) + Digits(t)
  {
    if t == [] {
      assert s + t == s;
    } else {
      DigitsConcat(s, t[..|t| - 1]);
      assert (s + t)[..|s + t| - 1] == s + t[..|t| - 1];
    }
  }

  /** Stored with or without a country prefix, a number of ten digits has one key. */
  lemma PrefixImmaterial(prefix: string, phone: string)
    requires |Digits(phone)| >= 10
    ensures PhoneKey(prefix + phone) == PhoneKey(phone)
  {
    DigitsConcat(prefix, phone);
  }

  lemma {:induction false} DigitsAreDigits(s: string)
    ensures forall i :: 0 <= i < |Digits(s)| ==> IsDigit(Digits(s)[i])
    ensures Digits(s) == [] <==> forall i :: 0 <= i < |s| ==> !IsDigit(s[i])
  {
    if s != [] {
      DigitsAreDigits(s[..|s| - 1]);
    }
  }

  /** Nothing but the ten digits is kept, and they are all kept. */
  lemma {:induction false} OnlyDigits(s: string)
    ensures forall c :: c in Digits(s) ==> '0' <= c <= '9'
  {
    if s != [] {
      OnlyDigits(s[..|s| - 1]);
    }
  }

  lemma {:induction false} AllDigits(s: string)
    requires forall i :: 0 <= i < |s| ==> '0' <= s[i] <= '9'
    ensures Digits(s) == s
  {
    if s != [] {
      AllDigits(s[..|s| - 1]);
      assert s == s[..|s| - 1] + [s[|s| - 1]];
    }
  }

  /** The key of a number is its last ten digits, or all of them if there are fewer. */
  lemma PhoneKeyMeans(phone: string)
    ensures |PhoneKey(phone)| == if |Digits(phone)| < 10 then |Digits(phone)| else 10
    ensures exists front :: Digits(phone) == front + PhoneKey(phone)
  {
    var d := Digits(phone);
    assert d == d[..|d| - |PhoneKey(phone)|] + PhoneKey(phone);
  }

  // ---------------------------------------------------------------- the test filter

  function Matching(us: seq<Recipient>, key: string): seq<Recipient> {
    if us == [] then []
    else
      var u := us[|us| - 1];
      Matching(us[..|us| - 1], key) + (if PhoneKey(u.phone) == key then [u] else [])
  }

  function Audience(us: seq<Recipient>, testPhone: string): seq<Recipient> {
    if Digits(testPhone) == "" then us else Matching(us, PhoneKey(testPhone))
  }

  /** The filter writes into the slice it is reading: the write position never passes the read
      position, so each element is read before it is overwritten. */
  method KeepTestHandset(a: array<Recipient>, testPhone: string) returns (n: nat)
    modifies a
    ensures n <= a.Length && a[..n] == Audience(old(a[..]), testPhone)
    ensures forall k :: n <= k < a.Length ==> a[k] == old(a[k])
  {
    var tp := DigitsOnly(testPhone);
    if tp == "" {
      assert a[..a.Length] == a[..];
      return a.Length;
    }
    ghost var was := a[..];
    var key := LastN(tp, 10);
    n := 0;
    for i := 0 to a.Length
      invariant n <= i && a[..n] == Matching(was[..i], key)
      invariant forall k :: n <= k < a.Length ==> a[k] == was[k]
    {
      assert was[..i + 1][..i] == was[..i];
      var digits := DigitsOnly(a[i].phone);
      if LastN(digits, 10) == key {
        a[n] := a[i];
        n := n + 1;
      }
    }
    assert was[..a.Length] == was;
  }

  lemma {:induction false} MatchingExact(us: seq<Recipient>, key: string)
    ensures forall u :: u in Matching(us, key) <==> u in us && PhoneKey(u.phone) == key
  {
    if us != [] {
      MatchingExact(us[..|us| - 1], key);
      assert us == us[..|us| - 1] + [us[|us| - 1]];
    }
  }

  /** A test number that contains no digit is no filter at all: the blast goes to everyone. Any
      other restricts it to the one handset. */
  lemma TestPhoneRestrictsIff(us: seq<Recipient>, testPhone: string)
    ensures (forall i :: 0 <= i < |testPhone| ==> !IsDigit(testPhone[i])) ==> Audience(us, testPhone) == us
    ensures (exists i :: 0 <= i < |testPhone| && IsDigit(testPhone[i])) ==>
      forall u :: u in Audience(us, testPhone) <==> u in us && PhoneKey(u.phone) == PhoneKey(testPhone)
  {
    DigitsAreDigits(testPhone);
    MatchingExact(us, PhoneKey(testPhone));
  }

  // ---------------------------------------------------------------- first occurrences

  /** Position `i` is the first to carry its key; None marks a recipient the channel skips. */
  predicate IsFirst(keys: seq<Option<string>>, i: nat)
    requires i < |keys|
  {
    keys[i].Some? && forall j :: 0 <= j < i ==> keys[j] != keys[i]
  }

  function Firsts(keys: seq<Option<string>>): seq<nat> {
    if keys == [] then []
    else
      var n := |keys| - 1;
      Firsts(keys[..n]) + (if IsFirst(keys, n) then [n] else [])
  }

  ghost function KeySet(keys: seq<Option<string>>): set<string> {
    set i | 0 <= i < |keys| && keys[i].Some? :: keys[i].value
  }

  lemma KeySetNext(keys: seq<Option<string>>, n: nat)
    requires n < |keys|
    ensures KeySet(keys[..n + 1]) == KeySet(keys[..n]) + (if keys[n].Some? then {keys[n].value} else {})
    ensures keys[n].Some? ==> (IsFirst(keys, n) <==> keys[n].value !in KeySet(keys[..n]))
  {
    var now, before := keys[..n + 1], keys[..n];
    forall k ensures k in KeySet(now) <==> k in KeySet(before) || keys[n] == Some(k) {
      if k in KeySet(now) {
        var i :| 0 <= i < |now| && now[i].Some? && now[i].value == k;
        assert i < n ==> before[i] == now[i];
      }
      if k in KeySet(before) {
        var i :| 0 <= i < |before| && before[i].Some? && before[i].value == k;
        assert now[i] == before[i];
      }
      if keys[n] == Some(k) { assert now[n].value == k; }
    }
    if keys[n].Some? && keys[n].value !in KeySet(before) {
      forall j | 0 <= j < n ensures keys[j] != keys[n] {
        assert before[j] == keys[j];
      }
    }
    if keys[n].Some? && keys[n].value in KeySet(before) {
      var i :| 0 <= i < |before| && before[i].Some? && before[i].value == keys[n].value;
      assert keys[i] == keys[n];
    }
  }

  lemma FirstsNext(keys: seq<Option<string>>, n: nat)
    requires n < |keys|
    ensures Firsts(keys[..n + 1]) == Firsts(keys[..n]) + (if IsFirst(keys, n) then [n] else [])
  {
    assert keys[..n + 1][..n] == keys[..n];
    assert IsFirst(keys[..n + 1], n) <==> IsFirst(keys, n);
  }

  /** The attempts are exactly the first occurrences, in list order ... */
  lemma {:induction false} FirstsExact(keys: seq<Option<string>>)
    ensures forall i :: i in Firsts(keys) <==> 0 <= i < |keys| && IsFirst(keys, i)
    ensures forall j, k :: 0 <= j < k < |Firsts(keys)| ==> Firsts(keys)[j] < Firsts(keys)[k]
  {
    if keys != [] {
      var n := |keys| - 1;
      FirstsExact(keys[..n]);
      forall i | 0 <= i < n ensures IsFirst(keys[..n], i) <==> IsFirst(keys, i) {
      }
      forall j | 0 <= j < |Firsts(keys[..n])| ensures Firsts(keys[..n])[j] < n {
        assert Firsts(keys[..n])[j] in Firsts(keys[..n]);
      }
    }
  }

  /** ... and there are as many as there are distinct keys. */
  lemma {:induction false} FirstsCount(keys: seq<Option<string>>, n: nat)
    requires n <= |keys|
    ensures |Firsts(keys[..n])| == |KeySet(keys[..n])|
  {
    if n == 0 {
      assert KeySet(keys[..0]) == {};
    } else {
      FirstsCount(keys, n - 1);
      FirstsNext(keys, n - 1);
      KeySetNext(keys, n - 1);
      var before := KeySet(keys[..n - 1]);
      if keys[n - 1].Some? && keys[n - 1].value !in before {
        assert |before + {keys[n - 1].value}| == |before| + 1;
      } else {
        assert KeySet(keys[..n]) == before;
      }
    }
  }

  /** No key is left out. */
  lemma {:induction false} EveryKeyAttempted(keys: seq<Option<string>>, i: nat)
    requires i < |keys| && keys[i].Some?
    ensures exists f: nat :: f <= i && f in Firsts(keys) && keys[f] == keys[i]
  {
    FirstsExact(keys);
    if IsFirst(keys, i) {
      assert i in Firsts(keys);
    } else {
      var j :| 0 <= j < i && keys[j] == keys[i];
      EveryKeyAttempted(keys, j);
      var f: nat :| f <= j && f in Firsts(keys) && keys[f] == keys[j];
      assert f <= i && keys[f] == keys[i];
    }
  }

  // ---------------------------------------------------------------- the send loop

  /** `lower` is the letter mapping of strings.ToLower, whatever it does to a letter. */
  function EmailKey(email: string, lower: char -> char): string {
    var s := MigrationText.TrimSpace(email);
    seq(|s|, i requires 0 <= i < |s| => lower(s[i]))
  }

  function PhoneKeys(us: seq<Recipient>, channel: Channel): seq<Option<string>> {
    seq(|us|, i requires 0 <= i < |us| =>
      if channel in {Both, Whatsapp} && us[i].phone != "" then Some(PhoneKey(us[i].phone)) else None)
  }

  function EmailKeys(us: seq<Recipient>, channel: Channel, lower: char -> char): seq<Option<string>> {
    seq(|us|, i requires 0 <= i < |us| =>
      var key := EmailKey(us[i].email, lower);
      if channel in {Both, Email} && key != "" then Some(key) else None)
  }

  /** Blanks around an address do not matter, and two addresses share a key exactly when what is
      left agrees letter by letter once lower-cased. */
  lemma SameAddressIff(email: string, other: string, lower: char -> char)
    ensures EmailKey(email, lower) == EmailKey(other, lower) <==>
      var a, b := MigrationText.TrimSpace(email), MigrationText.TrimSpace(other);
      |a| == |b| && forall i :: 0 <= i < |a| ==> lower(a[i]) == lower(b[i])
  {
    var a, b := MigrationText.TrimSpace(email), MigrationText.TrimSpace(other);
    var x, y := EmailKey(email, lower), EmailKey(other, lower);
    forall i | 0 <= i < |a| && i < |b| && x == y ensures lower(a[i]) == lower(b[i]) {
      assert x[i] == lower(a[i]) && y[i] == lower(b[i]);
    }
  }

  lemma BlanksAround(lead: string, email: string, trail: string, lower: char -> char)
    requires MigrationMarkers.AllSpace(lead) && MigrationMarkers.AllSpace(trail) && MigrationMarkers.Trimmed(email)
    ensures EmailKey(lead + email + trail, lower) == EmailKey(email, lower)
  {
    MigrationMarkers.TrimCore(lead, email, trail);
    MigrationMarkers.TrimCore("", email, "");
    assert "" + email + "" == email;
  }

  /** A message blast sends no mail and a mail blast no message, and on a channel that is meant
      everybody who can be reached on it is, through the first with the same number or address. */
  lemma ChannelsMean(us: seq<Recipient>, channel: Channel, lower: char -> char, i: nat)
    requires i < |us|
    ensures channel == Whatsapp || channel == Unknown ==> Firsts(EmailKeys(us, channel, lower)) == []
    ensures channel == Email || channel == Unknown ==> Firsts(PhoneKeys(us, channel)) == []
    ensures i in Firsts(PhoneKeys(us, channel)) ==> us[i].phone != ""
    ensures i in Firsts(EmailKeys(us, channel, lower)) ==> EmailKey(us[i].email, lower) != ""
    ensures (channel == Both || channel == Whatsapp) && us[i].phone != "" ==>
      exists f: nat :: f <= i && f in Firsts(PhoneKeys(us, channel)) && us[f].phone != ""
        && PhoneKey(us[f].phone) == PhoneKey(us[i].phone)
    ensures (channel == Both || channel == Email) && EmailKey(us[i].email, lower) != "" ==>
      exists f: nat :: f <= i && f in Firsts(EmailKeys(us, channel, lower))
        && EmailKey(us[f].email, lower) == EmailKey(us[i].email, lower)
  {
    var phones, mails := PhoneKeys(us, channel), EmailKeys(us, channel, lower);
    NoKeysNoFirsts(phones);
    NoKeysNoFirsts(mails);
    FirstsExact(phones);
    FirstsExact(mails);
    if phones[i].Some? { EveryKeyAttempted(phones, i); }
    if mails[i].Some? { EveryKeyAttempted(mails, i); }
  }

  lemma {:induction false} NoKeysNoFirsts(keys: seq<Option<string>>)
    ensures (forall i :: 0 <= i < |keys| ==> keys[i].None?) ==> Firsts(keys) == []
  {
    if keys != [] {
      NoKeysNoFirsts(keys[..|keys| - 1]);
    }
  }

  /** How many of the attempts the provider accepted. */
  function CountOk(attempts: seq<nat>, ok: seq<bool>): nat {
    if attempts == [] then 0
    else
      var i := attempts[|attempts| - 1];
      CountOk(attempts[..|attempts| - 1], ok) + (if i < |ok| && ok[i] then 1 else 0)
  }

  ghost function Accepted(attempts: seq<nat>, ok: seq<bool>): set<nat> {
    set i | i in attempts && i < |ok| && ok[i]
  }

  lemma AcceptedNext(front: seq<nat>, last: nat, ok: seq<bool>)
    ensures Accepted(front + [last], ok) == Accepted(front, ok) + (if last < |ok| && ok[last] then {last} else {})
  {
  }

  /** The sent counter is the number of recipients whose message the provider accepted. */
  lemma {:induction false} SentMeans(attempts: seq<nat>, ok: seq<bool>)
    requires forall j, k :: 0 <= j < k < |attempts| ==> attempts[j] < attempts[k]
    ensures CountOk(attempts, ok) == |Accepted(attempts, ok)|
  {
    if attempts != [] {
      var front, last := attempts[..|attempts| - 1], attempts[|attempts| - 1];
      SentMeans(front, ok);
      AcceptedNext(front, last, ok);
      assert attempts == front + [last];
      assert last !in Accepted(front, ok);
    }
  }

  /** One channel's counters and its set of keys already tried. */
  datatype Tally = Tally(seen: set<string>, attempts: seq<nat>, sent: nat, failed: nat)

  /** The tally after the first `n` recipients. */
  ghost predicate TallyAt(t: Tally, keys: seq<Option<string>>, n: nat, ok: seq<bool>)
    requires n <= |keys|
  {
    && t.seen == KeySet(keys[..n]) && t.attempts == Firsts(keys[..n])
    && t.sent == CountOk(t.attempts, ok) && t.sent + t.failed == |t.attempts|
  }

  /** One channel's share of an iteration: try a key once, count the outcome. */
  method Attempt(t: Tally, key: Option<string>, i: nat, ok: seq<bool>, ghost keys: seq<Option<string>>)
    returns (after: Tally)
    requires i < |keys| == |ok| && key == keys[i] && TallyAt(t, keys, i, ok)
    ensures TallyAt(after, keys, i + 1, ok)
  {
    KeySetNext(keys, i);
    FirstsNext(keys, i);
    after := t;
    if key.Some? && key.value !in t.seen {
      assert (t.attempts + [i])[..|t.attempts|] == t.attempts;
      after := after.(seen := t.seen + {key.value}, attempts := t.attempts + [i]);
      if ok[i] {
        after := after.(sent := t.sent + 1);
      } else {
        after := after.(failed := t.failed + 1);
      }
    }
  }

  /** The loop over the audience; `waOk` and `mailOk` say which sends the providers accept. */
  method Blast(us: seq<Recipient>, channel: Channel, lower: char -> char, waOk: seq<bool>, mailOk: seq<bool>)
    returns (whatsapp: Tally, mail: Tally)
    requires |waOk| == |mailOk| == |us|
    ensures var keys := PhoneKeys(us, channel);
      && whatsapp.attempts == Firsts(keys) && whatsapp.sent == CountOk(Firsts(keys), waOk)
      && whatsapp.sent + whatsapp.failed == |KeySet(keys)|
    ensures var keys := EmailKeys(us, channel, lower);
      && mail.attempts == Firsts(keys) && mail.sent == CountOk(Firsts(keys), mailOk)
      && mail.sent + mail.failed == |KeySet(keys)|
  {
    ghost var phones, mails := PhoneKeys(us, channel), EmailKeys(us, channel, lower);
    whatsapp, mail := Tally({}, [], 0, 0), Tally({}, [], 0, 0);
    assert KeySet(phones[..0]) == {} && KeySet(mails[..0]) == {};
    for i := 0 to |us|
      invariant TallyAt(whatsapp, phones, i, waOk) && TallyAt(mail, mails, i, mailOk)
    {
      var digits := DigitsOnly(us[i].phone);
      var phoneKey := if channel in {Both, Whatsapp} && us[i].phone != "" then Some(LastN(digits, 10)) else None;
      var address := EmailKey(us[i].email, lower);
      var emailKey := if channel in {Both, Email} && address != "" then Some(address) else None;
      whatsapp := Attempt(whatsapp, phoneKey, i, waOk, phones);
      mail := Attempt(mail, emailKey, i, mailOk, mails);
    }
    FirstsCount(phones, |us|);
    FirstsCount(mails, |us|);
    assert phones[..|us|] == phones && mails[..|us|] == mails;
  }

  /** Under a test number with a digit in it every message goes to that one handset, once. */
  lemma TestBlastReachesOneHandset(us: seq<Recipient>, testPhone: string, channel: Channel)
    requires exists i :: 0 <= i < |testPhone| && IsDigit(testPhone[i])
    ensures |Firsts(PhoneKeys(Audience(us, testPhone), channel))| <= 1
  {
    var keys, key := PhoneKeys(Audience(us, testPhone), channel), PhoneKey(testPhone);
    TestPhoneRestrictsIff(us, testPhone);
    forall i | 0 <= i < |keys| && keys[i].Some? ensures keys[i].value == key {
      assert Audience(us, testPhone)[i] in Audience(us, testPhone);
    }
    assert keys[..|keys|] == keys;
    FirstsCount(keys, |keys|);
    assert KeySet(keys) == {} || KeySet(keys) == {key};
  }
}
