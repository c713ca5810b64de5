/** Hierarchical names. */
module Names {
  import opened Bytes

  type Component = Octets
  type Name = seq<Component>

  /** The component spelled by a string of 8-bit characters. */
  function Spelled(s: string): Component
    requires forall i :: 0 <= i < |s| ==> s[i] < 256 as char
  {
    seq(|s|, i requires 0 <= i < |s| => s[i] as int)
  }

  /** The name without its last component; the empty name has none to lose. */
  function Parent(n: Name): Name { if n == [] then [] else n[..|n| - 1] }
}
