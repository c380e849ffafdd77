/**
 * The x-axis label formatter of the metrics charts
 * (frontend/src/components/Health.jsx): `formatX` keeps the time part of an
 * ISO-8601 timestamp, at most "HH:MM".
 */
module Health {
  import opened Strings

  /** The text between the first c of s and the next c, or the end of s. */
  function AfterFirst(s: string, c: char): string
    requires c in s
  {
    var rest := s[IndexOf(s, c) + 1..];
    if c in rest then rest[..IndexOf(rest, c)] else rest
  }

  /** formatX: `v.includes("T") ? v.split("T")[1].slice(0,5) : v`. */
  function FormatX(v: string): (r: string)
    ensures 'T' !in v ==> r == v
    ensures 'T' in v ==> |r| <= 5 && 'T' !in r
    ensures 'T' in v ==> r <= AfterFirst(v, 'T')
    ensures 'T' in v ==> |r| == if |AfterFirst(v, 'T')| < 5 then |AfterFirst(v, 'T')| else 5
  {
    if 'T' in v then
      var parts := Split(v, 'T');
      assert parts[1] == AfterFirst(v, 'T') by {
        var i := IndexOf(v, 'T');
        var rest := v[i + 1..];
        assert parts[1..] == Split(rest, 'T');
        if 'T' in rest {
          assert parts[1] == rest[..IndexOf(rest, 'T')];
        }
      }
      Prefix(parts[1], 5)
    else v
  }
}
