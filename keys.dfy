/** The key-set validator `test_json_keys` and the three key sets it is used with. */
module Keys {
  /** The top-level keys of a registration body. */
  const REGISTER_KEYS: set<string> := {"name", "email", "password", "phones"}
  /** The keys of a login body. */
  const LOGIN_KEYS: set<string> := {"email", "password"}
  /** The keys of one entry of a registration's `phones` list. */
  const PHONE_KEYS: set<string> := {"ddd", "number"}

  /**
   * The outcome of a key check: success, or the `KeyError` raised, whose message
   * is kept as the set of its fragments (their order and separators are left out).
   */
  datatype KeyCheck = Pass | Fail(fragments: set<string>)

  const REQUIRED_PREFIX: string := "Required key: "
  const INVALID_PREFIX: string := "Invalid key: "

  /** The message fragment naming a required key that is absent. */
  function RequiredFragment(key: string): string { REQUIRED_PREFIX + key }

  /** The message fragment naming a key that is present but not expected. */
  function InvalidFragment(key: string): string { INVALID_PREFIX + key }

  /** Checks that the keys `present` in a body are exactly the `needed` ones. */
  function TestJsonKeys(needed: set<string>, present: set<string>): (r: KeyCheck)
    ensures r.Pass? <==> present == needed
  {
    var missing := needed - present;
    var unknown := present - needed;
    if |missing| + |unknown| > 0 then
      Fail((set k | k in missing :: RequiredFragment(k)) + (set k | k in unknown :: InvalidFragment(k)))
    else
      Pass
  }

  lemma RequiredFragmentInjective(a: string, b: string)
    requires RequiredFragment(a) == RequiredFragment(b)
    ensures a == b
  {
    assert a == RequiredFragment(a)[|REQUIRED_PREFIX|..];
    assert b == RequiredFragment(b)[|REQUIRED_PREFIX|..];
  }

  lemma InvalidFragmentInjective(a: string, b: string)
    requires InvalidFragment(a) == InvalidFragment(b)
    ensures a == b
  {
    assert a == InvalidFragment(a)[|INVALID_PREFIX|..];
    assert b == InvalidFragment(b)[|INVALID_PREFIX|..];
  }

  /** A "Required key" fragment is never an "Invalid key" fragment. */
  lemma FragmentsDistinct(a: string, b: string)
    ensures RequiredFragment(a) != InvalidFragment(b)
  {
    assert RequiredFragment(a)[0] == 'R';
    assert InvalidFragment(b)[0] == 'I';
  }

  /**
   * A failed check names every missing key as "Required key: k" and every extra key
   * as "Invalid key: k", and nothing else: no key that is both needed and present.
   */
  lemma ReportsExactlyTheOffendingKeys(needed: set<string>, present: set<string>)
    requires needed != present
    ensures TestJsonKeys(needed, present).Fail?
    ensures forall k :: RequiredFragment(k) in TestJsonKeys(needed, present).fragments <==> k in needed && k !in present
    ensures forall k :: InvalidFragment(k) in TestJsonKeys(needed, present).fragments <==> k in present && k !in needed
    ensures forall f :: f in TestJsonKeys(needed, present).fragments ==>
              exists k :: (k in needed && k !in present && f == RequiredFragment(k))
                       || (k in present && k !in needed && f == InvalidFragment(k))
  {
    var r := TestJsonKeys(needed, present);
    var missing := needed - present;
    var unknown := present - needed;
    assert r.fragments == (set k | k in missing :: RequiredFragment(k)) + (set k | k in unknown :: InvalidFragment(k));
    forall k | RequiredFragment(k) in r.fragments
      ensures k in needed && k !in present
    {
      var k' :| (k' in missing && RequiredFragment(k') == RequiredFragment(k))
             || (k' in unknown && InvalidFragment(k') == RequiredFragment(k));
      if k' in missing && RequiredFragment(k') == RequiredFragment(k) {
        RequiredFragmentInjective(k', k);
      } else {
        FragmentsDistinct(k, k');
      }
    }
    forall k | InvalidFragment(k) in r.fragments
      ensures k in present && k !in needed
    {
      var k' :| (k' in missing && RequiredFragment(k') == InvalidFragment(k))
             || (k' in unknown && InvalidFragment(k') == InvalidFragment(k));
      if k' in unknown && InvalidFragment(k') == InvalidFragment(k) {
        InvalidFragmentInjective(k', k);
      } else {
        FragmentsDistinct(k', k);
      }
    }
  }
}
