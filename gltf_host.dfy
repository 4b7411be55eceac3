/**
 * Minimal stand-ins for the host types the lighting extension uses but does
 * not define: floating-point values, the quaternion type, the opaque extras
 * bag, image handles and the exceptions the extension code can raise.
 */
module GltfHost {

  /**
   * A C# `double`. Nothing in the extension does arithmetic on it; it is only
   * stored, compared for equality and written out. It is modelled as an exact
   * value (NaN is not represented).
   */
  type Double = real

  /** The host's quaternion, compared component by component. */
  datatype Quaternion = Quaternion(x: Double, y: Double, z: Double, w: Double)

  /** The identity rotation (0, 0, 0, 1). */
  const Identity: Quaternion := Quaternion(0.0, 0.0, 0.0, 1.0)

  /** The `extras` JSON bag of a glTF property: passed through unexamined. */
  datatype Extras = Extras(raw: string)

  /**
   * A handle to an image of some glTF root: the image's index and the root it
   * is scoped to. The root is kept only as an object identity.
   */
  datatype ImageId = ImageId(id: int, root: object)

  /** The exceptions the extension code can raise. */
  datatype Error =
    | ExtensionNotFound(message: string)  // the `Exception` thrown when the root lacks the extension
    | NullReference                       // a member access through a null reference
    | ArgumentOutOfRange                  // a list index outside [0, Count)
    | InvalidOperation                    // `.Value` of an empty nullable integer
}
