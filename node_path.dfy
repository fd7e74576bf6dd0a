/**
 * The two `node:path` operations the configuration code uses, on paths with
 * `/` as the separator and without `.`/`..` segments, repeated separators or a
 * trailing separator (Node's normalisation of those is not modelled).
 */
module NodePath {

  /** The index of the last `/` in `p`, or -1 when there is none. */
  function LastSeparator(p: string): (i: int)
    ensures -1 <= i < |p|
    ensures 0 <= i ==> p[i] == '/'
    ensures forall j :: i < j < |p| ==> p[j] != '/'
  {
    if p == [] then -1
    else if p[|p| - 1] == '/' then |p| - 1
    else LastSeparator(p[..|p| - 1])
  }

  /**
   * `path.dirname(p)`: everything before the last separator, `"/"` when that
   * separator is the first character and `"."` when there is no separator.
   */
  function Dirname(p: string): (d: string)
    ensures (forall j :: 0 <= j < |p| ==> p[j] != '/') ==> d == "."
    ensures |p| > 0 && p[0] == '/' && (forall j :: 0 < j < |p| ==> p[j] != '/') ==> d == "/"
    ensures forall i :: 0 < i < |p| && p[i] == '/' && (forall j :: i < j < |p| ==> p[j] != '/') ==> d == p[..i]
  {
    var i := LastSeparator(p);
    if i < 0 then "." else if i == 0 then "/" else p[..i]
  }

  /** `path.join(a, b)`, modelled as the two parts with one `/` between them. */
  function Join(a: string, b: string): string {
    a + "/" + b
  }
}
